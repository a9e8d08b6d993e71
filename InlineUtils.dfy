/**
 * Inline-depth arithmetic of the Kotlin debugger.
 *
 * The Kotlin compiler renames the locals of an inlined function by appending a fixed
 * suffix once per level of inlining. The debugger reads the inline depth back from
 * those names. The suffix and the two local-variable name prefixes are compiler
 * constants that this model takes as parameters; the suffix must be non-empty (with an
 * empty suffix the depth loop would never end).
 */
module InlineUtils {
  import opened Wrappers

  /** The compiler's naming constants. */
  datatype Conventions = Conventions(
    suffix: string,          // the inline-function variable suffix
    functionPrefix: string,  // prefix of the marker local of an inlined function
    argumentPrefix: string)  // prefix of the marker local of an inlined lambda argument

  /** A visible local variable: its name and the slot that orders variables in a frame. */
  datatype LocalVariable = LocalVariable(name: string, slot: int)

  /** `s` written `n` times back to back. */
  function Repeat(s: string, n: nat): (r: string)
    ensures |r| == n * |s|
  {
    if n == 0 then "" else Repeat(s, n - 1) + s
  }

  /**
   * Reference definition of the inline depth of a name: how many copies of `suffix`
   * end it, back to back.
   */
  function SuffixDepth(name: string, suffix: string): (d: nat)
    requires |suffix| > 0
    ensures d * |suffix| <= |name|
    ensures d == 0 <==> !EndsWith(name, suffix)
    decreases |name|
  {
    if EndsWith(name, suffix) then 1 + SuffixDepth(name[..|name| - |suffix|], suffix) else 0
  }

  /** What the name is left with once its trailing run of suffixes is cut off. */
  function Stem(name: string, suffix: string): string
    requires |suffix| > 0
    decreases |name|
  {
    if EndsWith(name, suffix) then Stem(name[..|name| - |suffix|], suffix) else name
  }

  /** A name is its stem followed by `SuffixDepth` copies of the suffix, and the stem does not end with the suffix. */
  lemma {:induction false} SuffixDecomposition(name: string, suffix: string)
    requires |suffix| > 0
    ensures name == Stem(name, suffix) + Repeat(suffix, SuffixDepth(name, suffix))
    ensures !EndsWith(Stem(name, suffix), suffix)
    decreases |name|
  {
    if EndsWith(name, suffix) {
      var shorter := name[..|name| - |suffix|];
      SuffixDecomposition(shorter, suffix);
      assert name == shorter + suffix;
      var d := SuffixDepth(shorter, suffix);
      assert Repeat(suffix, d + 1) == Repeat(suffix, d) + suffix;
    }
  }

  /**
   * The depth is the only count that decomposes a name this way: whenever
   * `name == rest + Repeat(suffix, n)` and `rest` does not end with the suffix,
   * `n` is the depth of `name`.
   */
  lemma {:induction false} SuffixDepthUnique(name: string, suffix: string, rest: string, n: nat)
    requires |suffix| > 0
    requires name == rest + Repeat(suffix, n)
    requires !EndsWith(rest, suffix)
    ensures SuffixDepth(name, suffix) == n
    decreases n
  {
    if n == 0 {
      assert name == rest;
    } else {
      var shorter := rest + Repeat(suffix, n - 1);
      assert name == shorter + suffix;
      assert EndsWith(name, suffix);
      assert name[..|name| - |suffix|] == shorter;
      SuffixDepthUnique(shorter, suffix, rest, n - 1);
    }
  }

  /** `getInlineDepth(String)`: walks back from the end of the name one suffix at a time. */
  method GetInlineDepth(name: string, suffix: string) returns (depth: nat)
    requires |suffix| > 0
    ensures depth == SuffixDepth(name, suffix)
  {
    var suffixLen := |suffix|;
    var endIndex := |name|;
    depth := 0;
    assert name[..endIndex] == name;
    while endIndex >= suffixLen
      invariant 0 <= endIndex <= |name|
      invariant SuffixDepth(name, suffix) == depth + SuffixDepth(name[..endIndex], suffix)
      decreases endIndex
    {
      var prefix := name[..endIndex];
      assert prefix[endIndex - suffixLen..] == name[endIndex - suffixLen..endIndex];
      if name[endIndex - suffixLen..endIndex] != suffix {
        break;
      }
      assert prefix[..endIndex - suffixLen] == name[..endIndex - suffixLen];
      depth := depth + 1;
      endIndex := endIndex - suffixLen;
    }
  }

  /** `dropInlineSuffix`: the name without its trailing run of suffixes. */
  function DropInlineSuffix(name: string, suffix: string): (r: string)
    requires |suffix| > 0
    ensures SuffixDepth(name, suffix) == 0 ==> r == name
    ensures StartsWith(name, r)
    ensures |name| - |r| == SuffixDepth(name, suffix) * |suffix|
    ensures name == r + Repeat(suffix, SuffixDepth(name, suffix))
    ensures SuffixDepth(r, suffix) == 0
  {
    var depth := SuffixDepth(name, suffix);
    SuffixDecomposition(name, suffix);
    assert name[..|name| - depth * |suffix|] == Stem(name, suffix);
    if depth == 0 then name else name[..|name| - depth * |suffix|]
  }

  /** Stripping twice strips nothing more. */
  lemma DropInlineSuffixIdempotent(name: string, suffix: string)
    requires |suffix| > 0
    ensures DropInlineSuffix(DropInlineSuffix(name, suffix), suffix) == DropInlineSuffix(name, suffix)
  {
  }

  /** Local variables ordered by slot, highest first. */
  ghost predicate SlotsDescending(vars: seq<LocalVariable>) {
    forall i, j :: 0 <= i < j < |vars| ==> vars[i].slot >= vars[j].slot
  }

  /** Puts `v` in front of the first variable whose slot is not above its own (keeps equal slots in input order). */
  function InsertBySlot(v: LocalVariable, sorted: seq<LocalVariable>): (r: seq<LocalVariable>)
    ensures |r| == |sorted| + 1
    ensures multiset(r) == multiset(sorted) + multiset{v}
  {
    if sorted == [] || sorted[0].slot <= v.slot then [v] + sorted
    else
      assert sorted == [sorted[0]] + sorted[1..];
      [sorted[0]] + InsertBySlot(v, sorted[1..])
  }

  /** Inserting into a list ordered by slot keeps it ordered. */
  lemma {:induction false} InsertBySlotKeepsOrder(v: LocalVariable, sorted: seq<LocalVariable>)
    requires SlotsDescending(sorted)
    ensures SlotsDescending(InsertBySlot(v, sorted))
  {
    if sorted != [] && sorted[0].slot > v.slot {
      var tail := InsertBySlot(v, sorted[1..]);
      InsertBySlotKeepsOrder(v, sorted[1..]);
      forall j | 0 <= j < |tail|
        ensures sorted[0].slot >= tail[j].slot
      {
        assert tail[j] in multiset(sorted[1..]) + multiset{v} by {
          assert tail[j] in multiset(tail);
        }
        if tail[j] != v {
          var k :| 1 <= k < |sorted| && sorted[k] == tail[j];
        }
      }
      assert InsertBySlot(v, sorted) == [sorted[0]] + tail;
    }
  }

  /** `sortedByDescending { it.variable }`: a stable sort on the slot, highest first. */
  function SortBySlotDescending(vars: seq<LocalVariable>): (r: seq<LocalVariable>)
    ensures |r| == |vars|
    ensures SlotsDescending(r)
    ensures multiset(r) == multiset(vars)
  {
    if vars == [] then []
    else
      assert vars == [vars[0]] + vars[1..];
      var rest := SortBySlotDescending(vars[1..]);
      InsertBySlotKeepsOrder(vars[0], rest);
      InsertBySlot(vars[0], rest)
  }

  /** How many variables have a name starting with `prefix` (`variables.count { … }`). */
  function CountWithPrefix(vars: seq<LocalVariable>, prefix: string): (n: nat)
    ensures n <= |vars|
  {
    if vars == [] then 0
    else (if StartsWith(vars[0].name, prefix) then 1 else 0) + CountWithPrefix(vars[1..], prefix)
  }

  /** A variable settles the list's depth: it carries suffixes, or it marks an inlined argument. */
  predicate Decides(v: LocalVariable, c: Conventions)
    requires |c.suffix| > 0
  {
    SuffixDepth(v.name, c.suffix) > 0 || StartsWith(v.name, c.argumentPrefix)
  }

  /** `i` is the first deciding position of `ordered`. */
  ghost predicate IsFirstDecider(ordered: seq<LocalVariable>, i: int, c: Conventions)
    requires |c.suffix| > 0
  {
    0 <= i < |ordered| && Decides(ordered[i], c) && forall j :: 0 <= j < i ==> !Decides(ordered[j], c)
  }

  /** A list has at most one first deciding position. */
  lemma FirstDeciderUnique(ordered: seq<LocalVariable>, i: int, j: int, c: Conventions)
    requires |c.suffix| > 0
    requires IsFirstDecider(ordered, i, c) && IsFirstDecider(ordered, j, c)
    ensures i == j
  {
  }

  /**
   * `getInlineDepth(List)`: the first variable, in descending slot order, that carries
   * suffixes gives the depth; an inlined-argument marker met first gives 0; when no
   * variable decides, the depth is the number of inlined-function markers.
   */
  method GetInlineDepthOfVariables(vars: seq<LocalVariable>, c: Conventions) returns (depth: nat)
    requires |c.suffix| > 0
    ensures forall i :: IsFirstDecider(SortBySlotDescending(vars), i, c) ==>
              depth == SuffixDepth(SortBySlotDescending(vars)[i].name, c.suffix)
    ensures (forall i :: 0 <= i < |vars| ==> !Decides(SortBySlotDescending(vars)[i], c)) ==>
              depth == CountWithPrefix(vars, c.functionPrefix) && depth <= |vars|
  {
    var rawInlineFunDepth := CountWithPrefix(vars, c.functionPrefix);
    var ordered := SortBySlotDescending(vars);
    var k := 0;
    while k < |ordered|
      invariant 0 <= k <= |ordered|
      invariant forall j :: 0 <= j < k ==> !Decides(ordered[j], c)
    {
      var name := ordered[k].name;
      var d := GetInlineDepth(name, c.suffix);
      if d > 0 || StartsWith(name, c.argumentPrefix) {
        assert IsFirstDecider(ordered, k, c);
        forall i | IsFirstDecider(ordered, i, c)
          ensures i == k
        {
          FirstDeciderUnique(ordered, i, k, c);
        }
        return if d > 0 then d else 0;
      }
      k := k + 1;
    }
    depth := rawInlineFunDepth;
  }
}
