/** The prompt renderer: section markers, the find-and-replace that fills a
    template, and the XML-like serialization of input tuples
    (src/prompt_manager/prompt_manager.cpp).

    JSON `dump()` of a field value is an external serializer, so every
    function that renders values takes it as the parameter `dump`.
 */
module PromptManager {
  import opened Results
  import opened Json
  import opened Strings

  // ---------------------------------------------------------------------
  // Section markers

  datatype PromptSection = UserPrompt | Tuples | ResponseFormat | Instructions

  /** `ToString<PromptSection>`: the placeholder a template uses for a
      section. Every marker is a non-empty `{{...}}` token and no two sections
      share one, so filling one section never touches another's marker. */
  function Marker(section: PromptSection): (m: string)
    ensures |m| > 4 && m[..2] == "{{" && m[|m| - 2..] == "}}"
  {
    match section
    case UserPrompt => "{{USER_PROMPT}}"
    case Tuples => "{{TUPLES}}"
    case ResponseFormat => "{{RESPONSE_FORMAT}}"
    case Instructions => "{{INSTRUCTIONS}}"
  }

  lemma MarkerInjective(a: PromptSection, b: PromptSection)
    ensures Marker(a) == Marker(b) <==> a == b
  {
  }

  // ---------------------------------------------------------------------
  // Replacing a marker

  /** Reference semantics of `ReplaceSection`: scan `s` left to right and
      replace every non-overlapping occurrence of `m` by `c`; text produced
      by a replacement is never scanned again. */
  function ReplaceAll(s: string, m: string, c: string): string
    requires |m| > 0
    decreases |s|
  {
    if s == [] then []
    else if OccursAt(s, m, 0) then c + ReplaceAll(s[|m|..], m, c)
    else [s[0]] + ReplaceAll(s[1..], m, c)
  }

  /** Replacement by content as long as the marker keeps the template's
      length, and by longer content never shortens it. */
  lemma {:induction false} ReplaceAllLength(s: string, m: string, c: string)
    requires |m| > 0
    ensures |c| == |m| ==> |ReplaceAll(s, m, c)| == |s|
    ensures |c| >= |m| ==> |ReplaceAll(s, m, c)| >= |s|
    decreases |s|
  {
    if s != [] {
      if OccursAt(s, m, 0) {
        ReplaceAllLength(s[|m|..], m, c);
      } else {
        ReplaceAllLength(s[1..], m, c);
      }
    }
  }

  /** A template without the marker comes back unchanged. */
  lemma {:induction false} ReplaceAllWithoutMarker(s: string, m: string, c: string)
    requires |m| > 0
    requires forall q: nat :: !OccursAt(s, m, q)
    ensures ReplaceAll(s, m, c) == s
    decreases |s|
  {
    if s != [] {
      assert !OccursAt(s, m, 0);
      forall q: nat ensures !OccursAt(s[1..], m, q) {
        OccursInSuffix(s, m, 1, q);
      }
      ReplaceAllWithoutMarker(s[1..], m, c);
    }
  }

  /** Replacing splits at the first occurrence: the text before it is kept,
      the occurrence becomes `c`, and the rest is replaced on its own. */
  lemma {:induction false} ReplaceAllAtFirst(s: string, m: string, c: string, p: nat)
    requires |m| > 0
    requires OccursAt(s, m, p)
    requires forall q: nat :: q < p ==> !OccursAt(s, m, q)
    ensures ReplaceAll(s, m, c) == s[..p] + c + ReplaceAll(s[p + |m|..], m, c)
    decreases p
  {
    if p > 0 {
      assert !OccursAt(s, m, 0);
      OccursInSuffix(s, m, 1, p - 1);
      forall q: nat | q < p - 1 ensures !OccursAt(s[1..], m, q) {
        OccursInSuffix(s, m, 1, q);
      }
      ReplaceAllAtFirst(s[1..], m, c, p - 1);
      ReplaceAllPastFirstChar(s, m, c, p);
    }
  }

  /** The step of `ReplaceAllAtFirst` past a first character that starts no
      occurrence. */
  lemma ReplaceAllPastFirstChar(s: string, m: string, c: string, p: nat)
    requires |m| > 0 && 0 < p && p + |m| <= |s| && !OccursAt(s, m, 0)
    requires ReplaceAll(s[1..], m, c) == s[1..][..p - 1] + c + ReplaceAll(s[1..][p - 1 + |m|..], m, c)
    ensures ReplaceAll(s, m, c) == s[..p] + c + ReplaceAll(s[p + |m|..], m, c)
  {
    var t := s[1..];
    var rest := ReplaceAll(s[p + |m|..], m, c);
    assert t[p - 1 + |m|..] == s[p + |m|..];
    assert s[..p] == [s[0]] + t[..p - 1];
    JoinRegroup([s[0]], t[..p - 1], c, rest);
  }

  lemma JoinRegroup<T>(a: seq<T>, b: seq<T>, c: seq<T>, d: seq<T>)
    ensures a + (b + c + d) == (a + b) + c + d
  {
  }

  /** Replacing a marker by itself changes nothing: inserted content is
      never re-expanded, even when it contains the marker. */
  lemma {:induction false} ReplaceAllBySelf(s: string, m: string)
    requires |m| > 0
    ensures ReplaceAll(s, m, m) == s
    decreases |s|
  {
    if s != [] {
      if OccursAt(s, m, 0) {
        ReplaceAllBySelf(s[|m|..], m);
        assert s == s[..|m|] + s[|m|..];
      } else {
        ReplaceAllBySelf(s[1..], m);
        assert s == [s[0]] + s[1..];
      }
    }
  }

  /** A template that is just the marker becomes exactly the content, even
      when the content itself holds the marker any number of times. */
  lemma MarkerOnlyTemplate(m: string, c: string)
    requires |m| > 0
    ensures ReplaceAll(m, m, c) == c
  {
    assert OccursAt(m, m, 0);
    assert m[|m|..] == [];
    assert c + [] == c;
  }

  /** The text of `prompt` after `find` returned `p`: the occurrence at `p`
      replaced in place by `c`. */
  function SpliceAt(prompt: string, p: nat, m: string, c: string): string
    requires p + |m| <= |prompt|
  {
    prompt[..p] + c + prompt[p + |m|..]
  }

  /** The loop's invariant: the text before the search position is final,
      and replacing the rest yields the reference result. */
  ghost predicate ReplacedUpTo(prompt: string, from: nat, m: string, c: string, goal: string)
    requires |m| > 0
  {
    from <= |prompt| && prompt[..from] + ReplaceAll(prompt[from..], m, c) == goal
  }

  /** One iteration of the replace loop keeps its invariant. */
  lemma ReplaceStep(prompt: string, from: nat, m: string, c: string, goal: string)
    requires |m| > 0
    requires ReplacedUpTo(prompt, from, m, c, goal)
    requires Find(prompt, m, from).Some?
    ensures var p := Find(prompt, m, from).value;
            ReplacedUpTo(SpliceAt(prompt, p, m, c), p + |c|, m, c, goal)
  {
    var p := Find(prompt, m, from).value;
    var rest := prompt[from..];
    var k := p - from;
    OccursInSuffix(prompt, m, from, k);
    forall q: nat | q < k ensures !OccursAt(rest, m, q) {
      OccursInSuffix(prompt, m, from, q);
    }
    ReplaceAllAtFirst(rest, m, c, k);
    assert rest[..k] == prompt[from..p];
    assert rest[k + |m|..] == prompt[p + |m|..];
    var tail := ReplaceAll(prompt[p + |m|..], m, c);
    var next := SpliceAt(prompt, p, m, c);
    assert next[..p + |c|] == prompt[..p] + c;
    assert next[p + |c|..] == prompt[p + |m|..];
    calc {
      goal;
      prompt[..from] + ReplaceAll(rest, m, c);
      prompt[..from] + (prompt[from..p] + c + tail);
      { assert prompt[..from] + prompt[from..p] == prompt[..p]; }
      prompt[..p] + c + tail;
      next[..p + |c|] + ReplaceAll(next[p + |c|..], m, c);
    }
  }

  /** When `find` reports no further occurrence the loop's text is final. */
  lemma ReplaceDone(prompt: string, from: nat, m: string, c: string, goal: string)
    requires |m| > 0
    requires ReplacedUpTo(prompt, from, m, c, goal)
    requires Find(prompt, m, from).None?
    ensures prompt == goal
  {
    forall q: nat ensures !OccursAt(prompt[from..], m, q) {
      OccursInSuffix(prompt, m, from, q);
    }
    ReplaceAllWithoutMarker(prompt[from..], m, c);
    assert prompt == prompt[..from] + prompt[from..];
  }

  /** `ReplaceSection(template, replace_string, content)`: the in-place
      find/replace loop. Each search resumes right after the content just
      inserted. An empty marker is excluded: `find` of an empty string
      returns its start position, so the source loop would insert the
      content at the same place forever. */
  method ReplaceSectionText(template: string, marker: string, content: string) returns (prompt: string)
    requires |marker| > 0
    ensures prompt == ReplaceAll(template, marker, content)
    ensures (forall q: nat :: !OccursAt(template, marker, q)) ==> prompt == template
  {
    ghost var goal := ReplaceAll(template, marker, content);
    prompt := template;
    var from: nat := 0;
    var pos := Find(prompt, marker, 0);
    while pos.Some?
      invariant ReplacedUpTo(prompt, from, marker, content, goal)
      invariant pos == Find(prompt, marker, from)
      decreases |prompt| - from
    {
      ReplaceStep(prompt, from, marker, content, goal);
      var p := pos.value;
      prompt := prompt[..p] + content + prompt[p + |marker|..];
      from := p + |content|;
      pos := Find(prompt, marker, from);
    }
    ReplaceDone(prompt, from, marker, content, goal);
    if forall q: nat :: !OccursAt(template, marker, q) {
      ReplaceAllWithoutMarker(template, marker, content);
    }
  }

  /** `ReplaceSection(template, section, content)`: the section overload is
      the text overload applied to the section's marker. */
  method ReplaceSection(template: string, section: PromptSection, content: string) returns (prompt: string)
    ensures prompt == ReplaceAll(template, Marker(section), content)
  {
    prompt := ReplaceSectionText(template, Marker(section), content);
  }

  // ---------------------------------------------------------------------
  // Serializing input tuples

  const ColOpen := "<col>"
  const ColClose := "</col>"
  const HeaderOpen := "<header>"
  const HeaderClose := "</header>\n"
  const TupleOpen := "<tuple>"
  const TupleClose := "</tuple>\n"

  /** One `<col>x</col>` cell per string, in order. */
  function Cells(xs: seq<string>): string {
    if xs == [] then "" else ColOpen + xs[0] + ColClose + Cells(xs[1..])
  }

  /** The dumped values of a tuple, in iteration order. */
  function DumpValues(dump: Json -> string, t: Object): (ds: seq<string>)
    ensures |ds| == |t|
    ensures forall i :: 0 <= i < |t| ==> ds[i] == dump(t[i].1)
  {
    if t == [] then [] else [dump(t[0].1)] + DumpValues(dump, t[1..])
  }

  /** `ConstructInputTuplesHeader`: the tuple's keys as header cells. The
      header is delimited by its tags, and a tuple without fields has an
      empty header. */
  function InputTuplesHeader(t: Object): (h: string)
    ensures StartsWith(h, HeaderOpen) && |h| >= |HeaderOpen| + |HeaderClose|
    ensures h[|h| - |HeaderClose|..] == HeaderClose
    ensures t == [] ==> h == HeaderOpen + HeaderClose
  {
    HeaderOpen + Cells(Keys(t)) + HeaderClose
  }

  /** `ConstructSingleInputTuple`: the tuple's dumped values as cells. The
      block is delimited by its tags, and the keys play no part. */
  function SingleInputTuple(dump: Json -> string, t: Object): (b: string)
    ensures StartsWith(b, TupleOpen) && |b| >= |TupleOpen| + |TupleClose|
    ensures b[|b| - |TupleClose|..] == TupleClose
    ensures t == [] ==> b == TupleOpen + TupleClose
  {
    TupleOpen + Cells(DumpValues(dump, t)) + TupleClose
  }

  /** One tuple block per tuple, in input order: nothing for no tuples, and
      at least one pair of tags per tuple otherwise. */
  function TupleBlocks(dump: Json -> string, ts: seq<Object>): (b: string)
    ensures |b| >= |ts| * (|TupleOpen| + |TupleClose|)
    ensures b == "" <==> ts == []
  {
    if ts == [] then "" else SingleInputTuple(dump, ts[0]) + TupleBlocks(dump, ts[1..])
  }

  /** The blocks of two runs of tuples are the two runs' blocks, joined:
      each tuple is rendered on its own, whatever surrounds it. */
  lemma {:induction false} TupleBlocksAppend(dump: Json -> string, xs: seq<Object>, ys: seq<Object>)
    ensures TupleBlocks(dump, xs + ys) == TupleBlocks(dump, xs) + TupleBlocks(dump, ys)
    decreases |xs|
  {
    if xs != [] {
      assert (xs + ys)[1..] == xs[1..] + ys;
      TupleBlocksAppend(dump, xs[1..], ys);
    } else {
      assert xs + ys == ys;
    }
  }

  /** `ConstructInputTuples`: the header of the first tuple only, then every
      tuple's block. The source reads `tuples[0]` unguarded, so the input
      must be non-empty. The text opens with the first tuple's header and
      then its block. */
  function InputTuples(dump: Json -> string, ts: seq<Object>): (r: string)
    requires |ts| > 0
    ensures StartsWith(r, InputTuplesHeader(ts[0]) + SingleInputTuple(dump, ts[0]))
  {
    var h := InputTuplesHeader(ts[0]);
    var b := SingleInputTuple(dump, ts[0]);
    var rest := TupleBlocks(dump, ts[1..]);
    assert h + TupleBlocks(dump, ts) == (h + b) + rest;
    PrefixOfJoin(h + b, rest);
    h + TupleBlocks(dump, ts)
  }

  /** A tuple appended to the input adds its block at the end and changes
      nothing before it; the header stays the first tuple's. */
  lemma InputTuplesAppend(dump: Json -> string, ts: seq<Object>, t: Object)
    requires |ts| > 0
    ensures InputTuples(dump, ts + [t]) == InputTuples(dump, ts) + SingleInputTuple(dump, t)
  {
    var x := SingleInputTuple(dump, t);
    TupleBlocksAppend(dump, ts, [t]);
    assert (ts + [t])[0] == ts[0];
    assert TupleBlocks(dump, [t]) == x by {
      assert [t][1..] == [];
      assert x + "" == x;
    }
    JoinAssoc(InputTuplesHeader(ts[0]), TupleBlocks(dump, ts), x);
  }

  lemma JoinAssoc<T>(a: seq<T>, b: seq<T>, c: seq<T>)
    ensures a + (b + c) == (a + b) + c
  {
  }
}
