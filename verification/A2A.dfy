/** Aggregation of streamed A2A artifact chunks into whole events
    (core/src/a2a/a2a_remote_agent_run_processor.ts). */
module A2A {
  import opened Wrappers
  import opened Seqs
  import opened Events

  /** The fields of an agent event that take part in aggregation. */
  datatype AdkEvent = AdkEvent(parts: seq<Part>, citations: Option<seq<string>>,
                               custom: Option<map<string, Json>>, grounding: Option<string>,
                               usage: Option<string>, partial: Option<bool>)

  datatype Aggregation = Aggregation(text: string, thoughts: string, parts: seq<Part>,
                                     citations: Option<seq<string>>, custom: Option<map<string, Json>>,
                                     grounding: Option<string>, usage: Option<string>)

  const EMPTY := Aggregation("", "", [], None, None, None, None)

  predicate IsText(p: Part) { p.text.Some? && p.text.value != "" }

  function TextPart(text: string): Part { EMPTY_PART.(text := Some(text)) }

  function ThoughtPart(text: string): Part { EMPTY_PART.(text := Some(text), thought := true) }

  /** At most one thought part, then at most one text part. */
  function Flush(thoughts: string, text: string): seq<Part> {
    (if thoughts != "" then [ThoughtPart(thoughts)] else []) + (if text != "" then [TextPart(text)] else [])
  }

  function Promote(agg: Aggregation): Aggregation {
    agg.(parts := agg.parts + Flush(agg.thoughts, agg.text), thoughts := "", text := "")
  }

  function AddPart(agg: Aggregation, p: Part): Aggregation {
    if IsText(p) then
      if p.thought then agg.(thoughts := agg.thoughts + p.text.value)
      else agg.(text := agg.text + p.text.value)
    else Promote(agg).(parts := Promote(agg).parts + [p])
  }

  function AddParts(agg: Aggregation, parts: seq<Part>): Aggregation
    decreases |parts|
  {
    if parts == [] then agg else AddParts(AddPart(agg, parts[0]), parts[1..])
  }

  function Merge(a: Option<map<string, Json>>, b: Option<map<string, Json>>): Option<map<string, Json>> {
    if b.None? then a else Some((if a.Some? then a.value else map[]) + b.value)
  }

  function Join(a: Option<seq<string>>, b: Option<seq<string>>): Option<seq<string>> {
    if b.None? then a else Some((if a.Some? then a.value else []) + b.value)
  }

  function LatestOf(a: Option<string>, b: Option<string>): Option<string> {
    if b.None? then a else b
  }

  function Update(agg: Aggregation, e: AdkEvent): Aggregation {
    AddParts(agg, e.parts).(citations := Join(agg.citations, e.citations), custom := Merge(agg.custom, e.custom),
                            grounding := LatestOf(agg.grounding, e.grounding), usage := LatestOf(agg.usage, e.usage))
  }

  /** The complete event built from an aggregation. */
  function Build(agg: Aggregation): AdkEvent {
    AdkEvent(Promote(agg).parts, agg.citations, agg.custom, agg.grounding, agg.usage, Some(false))
  }

  // ---------------------------------------------------------------------------
  // Reference: the normal form of a part stream
  // ---------------------------------------------------------------------------

  /** All thought text, or all other text, of a stream. */
  function TextOf(s: seq<Part>, thought: bool): string {
    if s == [] then ""
    else (if IsText(s[0]) && s[0].thought == thought then s[0].text.value else "") + TextOf(s[1..], thought)
  }

  function FirstOther(s: seq<Part>): (i: nat)
    ensures i <= |s| && (forall j :: 0 <= j < i ==> IsText(s[j])) && (i < |s| ==> !IsText(s[i]))
  {
    if s == [] || !IsText(s[0]) then 0 else 1 + FirstOther(s[1..])
  }

  /** Between consecutive non-text parts, one thought part with all thought text,
      then one text part with all other text. */
  function NormalForm(s: seq<Part>): seq<Part>
    decreases |s|
  {
    var i := FirstOther(s);
    var block := Flush(TextOf(s[..i], true), TextOf(s[..i], false));
    if i == |s| then block else block + [s[i]] + NormalForm(s[i + 1..])
  }

  lemma {:induction false} AddPartsSplits(agg: Aggregation, s: seq<Part>, t: seq<Part>)
    ensures AddParts(agg, s + t) == AddParts(AddParts(agg, s), t)
    decreases |s|
  {
    if s == [] {
      assert s + t == t;
    } else {
      assert (s + t)[1..] == s[1..] + t;
      AddPartsSplits(AddPart(agg, s[0]), s[1..], t);
    }
  }

  lemma {:induction false} TextOfAppend(s: seq<Part>, t: seq<Part>, thought: bool)
    ensures TextOf(s + t, thought) == TextOf(s, thought) + TextOf(t, thought)
  {
    if s == [] {
      assert s + t == t;
    } else {
      assert (s + t)[1..] == s[1..] + t;
      TextOfAppend(s[1..], t, thought);
    }
  }

  /** A block of text parts only extends the pending texts. */
  lemma {:induction false} TextBlock(agg: Aggregation, s: seq<Part>)
    requires forall i :: 0 <= i < |s| ==> IsText(s[i])
    ensures AddParts(agg, s) == agg.(thoughts := agg.thoughts + TextOf(s, true), text := agg.text + TextOf(s, false))
    decreases |s|
  {
    if s != [] {
      TextBlock(AddPart(agg, s[0]), s[1..]);
    }
  }

  lemma AllText(agg: Aggregation, s: seq<Part>)
    requires agg.text == "" && agg.thoughts == "" && FirstOther(s) == |s|
    ensures Promote(AddParts(agg, s)).parts == agg.parts + NormalForm(s)
  {
    assert s[..|s|] == s;
    TextBlock(agg, s);
    assert "" + TextOf(s, true) == TextOf(s, true) && "" + TextOf(s, false) == TextOf(s, false);
  }

  /** Aggregating a stream into an aggregation with nothing pending appends its
      normal form. */
  lemma {:induction false} AggregatesToNormalForm(agg: Aggregation, s: seq<Part>)
    requires agg.text == "" && agg.thoughts == ""
    ensures Promote(AddParts(agg, s)).parts == agg.parts + NormalForm(s)
    decreases |s|
  {
    var i := FirstOther(s);
    if i == |s| {
      AllText(agg, s);
    } else {
      var next := ThroughFirstOther(agg, s);
      AggregatesToNormalForm(next, s[i + 1..]);
      Regroup(agg.parts, Flush(TextOf(s[..i], true), TextOf(s[..i], false)) + [s[i]], NormalForm(s[i + 1..]));
    }
  }

  lemma Regroup<T>(a: seq<T>, b: seq<T>, c: seq<T>)
    ensures a + b + c == a + (b + c)
  {
  }

  lemma ThroughFirstOther(agg: Aggregation, s: seq<Part>) returns (next: Aggregation)
    requires agg.text == "" && agg.thoughts == "" && FirstOther(s) < |s|
    ensures var i := FirstOther(s);
            && AddParts(agg, s) == AddParts(next, s[i + 1..])
            && next.parts == agg.parts + (Flush(TextOf(s[..i], true), TextOf(s[..i], false)) + [s[i]])
            && next.text == "" && next.thoughts == ""
  {
    var i := FirstOther(s);
    var block := s[..i];
    TextBlock(agg, block);
    assert s == block + s[i..];
    AddPartsSplits(agg, block, s[i..]);
    next := AddPart(AddParts(agg, block), s[i]);
    assert s[i..][1..] == s[i + 1..];
    assert "" + TextOf(block, true) == TextOf(block, true) && "" + TextOf(block, false) == TextOf(block, false);
  }

  // ---------------------------------------------------------------------------
  // The fold over a list of chunks
  // ---------------------------------------------------------------------------

  function Fold(agg: Aggregation, chunks: seq<AdkEvent>): Aggregation {
    if chunks == [] then agg else Update(Fold(agg, chunks[..|chunks| - 1]), chunks[|chunks| - 1])
  }

  function PartsOf(chunks: seq<AdkEvent>): seq<Part> {
    if chunks == [] then [] else PartsOf(chunks[..|chunks| - 1]) + chunks[|chunks| - 1].parts
  }

  predicate HasCitations(chunks: seq<AdkEvent>) {
    chunks != [] && (chunks[|chunks| - 1].citations.Some? || HasCitations(chunks[..|chunks| - 1]))
  }

  function CitationsOf(chunks: seq<AdkEvent>): seq<string> {
    if chunks == [] then []
    else
      var last := chunks[|chunks| - 1].citations;
      CitationsOf(chunks[..|chunks| - 1]) + if last.Some? then last.value else []
  }

  lemma {:induction false} FoldConcatenates(chunks: seq<AdkEvent>)
    ensures var a, b := Fold(EMPTY, chunks), AddParts(EMPTY, PartsOf(chunks));
            a.text == b.text && a.thoughts == b.thoughts && a.parts == b.parts
  {
    if chunks != [] {
      var n := |chunks| - 1;
      FoldConcatenates(chunks[..n]);
      AddPartsSplits(EMPTY, PartsOf(chunks[..n]), chunks[n].parts);
      OnlyPartsMatter(Fold(EMPTY, chunks[..n]), AddParts(EMPTY, PartsOf(chunks[..n])), chunks[n].parts);
    }
  }

  lemma {:induction false} OnlyPartsMatter(a: Aggregation, b: Aggregation, parts: seq<Part>)
    requires a.text == b.text && a.thoughts == b.thoughts && a.parts == b.parts
    ensures var x, y := AddParts(a, parts), AddParts(b, parts);
            x.text == y.text && x.thoughts == y.thoughts && x.parts == y.parts
    decreases |parts|
  {
    if parts != [] {
      OnlyPartsMatter(AddPart(a, parts[0]), AddPart(b, parts[0]), parts[1..]);
    }
  }

  /** What an aggregate event holds depends only on the concatenated part stream of
      its chunks, not on where the stream was cut. */
  lemma BuiltPartsAreNormalForm(chunks: seq<AdkEvent>)
    ensures Build(Fold(EMPTY, chunks)).parts == NormalForm(PartsOf(chunks))
  {
    FoldConcatenates(chunks);
    AggregatesToNormalForm(EMPTY, PartsOf(chunks));
    assert [] + NormalForm(PartsOf(chunks)) == NormalForm(PartsOf(chunks));
  }

  // ---------------------------------------------------------------------------
  // What determines the parts of an aggregate
  // ---------------------------------------------------------------------------

  predicate HasText(p: Part) { p.text.Some? && |p.text.value| > 0 }

  function NoText(): Part -> bool { (p: Part) => !HasText(p) }

  /** The thought text, or the other text, in front of the first part without text, of
      the second one, and so on, and behind the last. */
  function Blocks(s: seq<Part>, thought: bool): (r: seq<string>)
    ensures r != []
  {
    if s == [] then [""]
    else
      var rest := Blocks(s[1..], thought);
      if !HasText(s[0]) then [""] + rest
      else if s[0].thought == thought then [s[0].text.value + rest[0]] + rest[1..]
      else rest
  }

  predicate IsBare(p: Part) {
    p == Part(p.text, p.thought, None, None, None, None, None)
  }

  /** Text parts hold nothing but text; of two neighbours the first is the thought. */
  ghost predicate Tidy(parts: seq<Part>) {
    && (forall i :: 0 <= i < |parts| && HasText(parts[i]) ==> IsBare(parts[i]))
    && (forall i :: 0 < i < |parts| && HasText(parts[i - 1]) && HasText(parts[i]) ==>
          parts[i - 1].thought && !parts[i].thought)
  }

  /** The same text in the same places between the same parts without text. */
  ghost predicate SameContent(a: seq<Part>, b: seq<Part>) {
    Filter(a, NoText()) == Filter(b, NoText()) && Blocks(a, true) == Blocks(b, true)
    && Blocks(a, false) == Blocks(b, false)
  }

  /** Parts with text in front of others. */
  lemma {:induction false} BlocksOfText(s: seq<Part>, t: seq<Part>, thought: bool)
    requires forall i :: 0 <= i < |s| ==> IsText(s[i])
    ensures Blocks(s + t, thought) == [TextOf(s, thought) + Blocks(t, thought)[0]] + Blocks(t, thought)[1..]
    ensures Filter(s + t, NoText()) == Filter(t, NoText())
  {
    if s == [] {
      assert s + t == t && "" + Blocks(t, thought)[0] == Blocks(t, thought)[0];
    } else {
      assert (s + t)[1..] == s[1..] + t;
      BlocksOfText(s[1..], t, thought);
      Glue(if s[0].thought == thought then s[0].text.value else "", TextOf(s[1..], thought), Blocks(t, thought)[0]);
    }
  }

  lemma Glue(a: string, b: string, c: string)
    ensures a + (b + c) == (a + b) + c && "" + b == b
  {
  }

  lemma BlocksOfFlush(thoughts: string, text: string, rest: seq<Part>, thought: bool)
    ensures Blocks(Flush(thoughts, text) + rest, thought)
         == [(if thought then thoughts else text) + Blocks(rest, thought)[0]] + Blocks(rest, thought)[1..]
    ensures Filter(Flush(thoughts, text) + rest, NoText()) == Filter(rest, NoText())
  {
    var block := Flush(thoughts, text);
    BlocksOfText(block, rest, thought);
    if thoughts != "" {
      assert block[1..] == Flush("", text);
      Glue(thoughts, "", "");
    }
  }

  lemma TidyCons(thoughts: string, text: string, rest: seq<Part>)
    requires Tidy(rest) && (rest != [] ==> !HasText(rest[0]))
    ensures Tidy(Flush(thoughts, text) + rest)
  {
    var block := Flush(thoughts, text);
    var parts := block + rest;
    assert forall i :: 0 <= i < |block| ==> parts[i] == block[i];
    assert forall i :: |block| <= i < |parts| ==> parts[i] == rest[i - |block|];
  }

  lemma TidyBehind(p: Part, rest: seq<Part>)
    requires Tidy(rest) && !HasText(p)
    ensures Tidy([p] + rest)
  {
    assert forall i :: 1 <= i < |[p] + rest| ==> ([p] + rest)[i] == rest[i - 1];
  }

  lemma BehindOther(p: Part, rest: seq<Part>, s: seq<Part>)
    requires !HasText(p) && Tidy(rest) && SameContent(rest, s)
    ensures Tidy([p] + rest) && SameContent([p] + rest, [p] + s)
  {
    TidyBehind(p, rest);
    assert ([p] + rest)[1..] == rest && ([p] + s)[1..] == s;
  }

  lemma SameBlocks(head: seq<Part>, tail: seq<Part>, thoughts: string, text: string, rest: seq<Part>)
    requires forall i :: 0 <= i < |head| ==> IsText(head[i])
    requires thoughts == TextOf(head, true) && text == TextOf(head, false) && SameContent(rest, tail)
    ensures SameContent(Flush(thoughts, text) + rest, head + tail)
  {
    BlocksOfText(head, tail, true);
    BlocksOfText(head, tail, false);
    BlocksOfFlush(thoughts, text, rest, true);
    BlocksOfFlush(thoughts, text, rest, false);
  }

  /** The normal form of a stream has the same text in the same places between the same
      other parts, tidied up: between two of them one thought part and then one other
      text part at most, each holding nothing but text. */
  lemma {:induction false} NormalFormIs(s: seq<Part>)
    ensures SameContent(NormalForm(s), s) && Tidy(NormalForm(s))
    decreases |s|
  {
    var i := FirstOther(s);
    var thoughts, text := TextOf(s[..i], true), TextOf(s[..i], false);
    assert s == s[..i] + s[i..];
    if i < |s| {
      NormalFormIs(s[i + 1..]);
      BehindOther(s[i], NormalForm(s[i + 1..]), s[i + 1..]);
      TidyCons(thoughts, text, [s[i]] + NormalForm(s[i + 1..]));
      assert s[i..] == [s[i]] + s[i + 1..];
      SameBlocks(s[..i], s[i..], thoughts, text, [s[i]] + NormalForm(s[i + 1..]));
      Regroup(Flush(thoughts, text), [s[i]], NormalForm(s[i + 1..]));
    } else {
      TidyCons(thoughts, text, []);
      SameBlocks(s[..i], s[i..], thoughts, text, []);
      assert Flush(thoughts, text) + [] == NormalForm(s);
    }
  }

  /** In front of the first part without text, tidy parts hold each text in one part. */
  lemma FirstBlock(p: seq<Part>)
    requires Tidy(p) && p != [] && HasText(p[0])
    ensures Blocks(p, p[0].thought) == [p[0].text.value] + Blocks(p[1..], p[0].thought)[1..]
    ensures Blocks(p[1..], p[0].thought)[0] == "" && (!p[0].thought ==> Blocks(p, true)[0] == "")
  {
    var rest := p[1..];
    if rest != [] {
      assert rest[0] == p[1];
      if HasText(rest[0]) && |rest| > 1 {
        assert rest[1] == p[2] && rest[1..][0] == p[2];
      }
    }
    assert p[0].text.value + "" == p[0].text.value;
  }

  lemma TidyTail(p: seq<Part>)
    requires Tidy(p) && p != []
    ensures Tidy(p[1..])
  {
    assert forall i :: 0 <= i < |p| - 1 ==> p[1..][i] == p[i + 1];
  }

  lemma SameFirst(p: seq<Part>, q: seq<Part>)
    requires Tidy(p) && Tidy(q) && SameContent(p, q) && p != [] && HasText(p[0])
    ensures q != [] && q[0] == p[0] && SameContent(p[1..], q[1..])
  {
    FirstBlock(p);
    assert q != [] && HasText(q[0]) by {
      assert Blocks(q, p[0].thought)[0] == p[0].text.value;
    }
    FirstBlock(q);
    assert Blocks(p, p[0].thought)[1..] == Blocks(p[1..], p[0].thought)[1..];
    assert Blocks(q, p[0].thought)[1..] == Blocks(q[1..], p[0].thought)[1..];
    OnlyEmptyHead(Blocks(p[1..], p[0].thought), Blocks(q[1..], p[0].thought));
  }

  lemma OnlyEmptyHead(a: seq<string>, b: seq<string>)
    requires a != [] && b != [] && a[0] == b[0] && a[1..] == b[1..]
    ensures a == b
  {
    assert a == [a[0]] + a[1..] && b == [b[0]] + b[1..];
  }

  /** Nothing else is left open: tidy parts with the same content are the same parts. */
  lemma {:induction false} TidyIsUnique(p: seq<Part>, q: seq<Part>)
    requires Tidy(p) && Tidy(q) && SameContent(p, q)
    ensures p == q
    decreases |p|
  {
    if p == [] {
      if q != [] && HasText(q[0]) {
        FirstBlock(q);
      }
    } else if HasText(p[0]) {
      SameFirst(p, q);
      TidyTail(p);
      TidyTail(q);
      TidyIsUnique(p[1..], q[1..]);
    } else {
      if q != [] && HasText(q[0]) {
        FirstBlock(q);
        assert Blocks(p, q[0].thought)[0] == "";
      }
      assert q != [] && !HasText(q[0]);
      TidyTail(p);
      TidyTail(q);
      SameBehind(p, q);
      TidyIsUnique(p[1..], q[1..]);
    }
  }

  lemma SameBehind(p: seq<Part>, q: seq<Part>)
    requires p != [] && q != [] && !HasText(p[0]) && !HasText(q[0]) && SameContent(p, q)
    ensures p[0] == q[0] && SameContent(p[1..], q[1..])
  {
    var a, b := Filter(p[1..], NoText()), Filter(q[1..], NoText());
    assert ([p[0]] + a)[1..] == a && ([q[0]] + b)[1..] == b && ([p[0]] + a)[0] == p[0];
    assert Blocks(p, true)[1..] == Blocks(p[1..], true) && Blocks(q, true)[1..] == Blocks(q[1..], true);
    assert Blocks(p, false)[1..] == Blocks(p[1..], false) && Blocks(q, false)[1..] == Blocks(q[1..], false);
  }

  /** The parts of an aggregate, without reference to how they are built: they are tidy
      and hold exactly the content of the chunks' concatenated parts, which determines
      them. */
  lemma BuiltPartsAre(chunks: seq<AdkEvent>, parts: seq<Part>)
    ensures parts == Build(Fold(EMPTY, chunks)).parts <==> Tidy(parts) && SameContent(parts, PartsOf(chunks))
  {
    BuiltPartsAreNormalForm(chunks);
    NormalFormIs(PartsOf(chunks));
    if Tidy(parts) && SameContent(parts, PartsOf(chunks)) {
      TidyIsUnique(parts, NormalForm(PartsOf(chunks)));
    }
  }

  /** The citations of an aggregate are those of all its chunks, in order. */
  lemma {:induction false} BuiltCitations(chunks: seq<AdkEvent>)
    ensures Build(Fold(EMPTY, chunks)).citations == if HasCitations(chunks) then Some(CitationsOf(chunks)) else None
    ensures !HasCitations(chunks) ==> CitationsOf(chunks) == []
  {
    if chunks != [] {
      var before := chunks[..|chunks| - 1];
      BuiltCitations(before);
      assert CitationsOf(before) + [] == CitationsOf(before);
    }
  }

  /** What the last chunk that says anything about a key of the metadata says. */
  function LastCustom(chunks: seq<AdkEvent>, key: string): Option<Json> {
    if chunks == [] then None
    else
      var custom := chunks[|chunks| - 1].custom;
      if custom.Some? && key in custom.value then Some(custom.value[key])
      else LastCustom(chunks[..|chunks| - 1], key)
  }

  /** The last value that is present. */
  function LastPresent(values: seq<Option<string>>): Option<string> {
    if values == [] then None
    else if values[|values| - 1].Some? then values[|values| - 1]
    else LastPresent(values[..|values| - 1])
  }

  function Groundings(chunks: seq<AdkEvent>): seq<Option<string>> {
    seq(|chunks|, i requires 0 <= i < |chunks| => chunks[i].grounding)
  }

  function Usages(chunks: seq<AdkEvent>): seq<Option<string>> {
    seq(|chunks|, i requires 0 <= i < |chunks| => chunks[i].usage)
  }

  /** The metadata of an aggregate: for every key and for grounding and usage the last
      chunk that has it decides; and the aggregate is marked complete. */
  lemma {:induction false} BuiltMetadata(chunks: seq<AdkEvent>)
    ensures var e := Build(Fold(EMPTY, chunks));
            && e.partial == Some(false)
            && (e.custom.Some? <==> exists i :: 0 <= i < |chunks| && chunks[i].custom.Some?)
            && (forall k :: (if e.custom.Some? && k in e.custom.value then Some(e.custom.value[k]) else None)
                            == LastCustom(chunks, k))
            && e.grounding == LastPresent(Groundings(chunks)) && e.usage == LastPresent(Usages(chunks))
  {
    if chunks != [] {
      var n := |chunks| - 1;
      BuiltMetadata(chunks[..n]);
      assert Groundings(chunks)[..n] == Groundings(chunks[..n]);
      assert Usages(chunks)[..n] == Usages(chunks[..n]);
      assert forall i :: 0 <= i < n ==> chunks[..n][i] == chunks[i];
    }
  }
}
