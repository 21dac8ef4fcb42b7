/** The digest builder `formatMRsForSlack` (main.go:162-209): sorts the
    caller's merge requests in place, oldest first, and writes one bullet line
    per merge request under a header, or a fixed text when there are none. */
module Digest {
  import opened Wrappers
  import opened Decimal
  import opened AgeText

  /** Go's `time.Time`, as nanoseconds since its zero value. */
  type Time = int

  const ZeroTime: Time := 0

  predicate IsZero(t: Time) {
    t == ZeroTime
  }

  /** The fields of GitLab's merge request the digest reads; the author's name
      and the creation time are behind nullable pointers. */
  datatype MergeRequest = MergeRequest(
    webURL: string,
    title: string,
    author: Option<string>,
    createdAt: Option<Time>)

  /** One element of the slice: a pointer to a merge request, None for nil. */
  type Entry = Option<MergeRequest>

  /** What a call ends in: the digest text, or a nil-pointer panic. */
  datatype Outcome = Rendered(text: string) | Panicked

  const NoOpenMergeRequests := "✅ No open merge requests"
  const Header := "*Open Merge Requests:*\n"

  predicate HasTime(e: Entry) {
    e.Some? && e.value.createdAt.Some?
  }

  function CreatedAt(e: Entry): Time
    requires HasTime(e)
  {
    e.value.createdAt.value
  }

  /** The comparator of main.go:170-181: nil merge requests compare equal to
      anything; otherwise both creation times are dereferenced. */
  function Compare(a: Entry, b: Entry): (r: int)
    requires a.Some? && b.Some? ==> HasTime(a) && HasTime(b)
    ensures a.None? || b.None? ==> r == 0
    ensures HasTime(a) && HasTime(b) ==>
      && (r < 0 <==> CreatedAt(a) < CreatedAt(b))
      && (r == 0 <==> CreatedAt(a) == CreatedAt(b))
      && (r > 0 <==> CreatedAt(a) > CreatedAt(b))
  {
    if a.None? || b.None? then 0
    else if CreatedAt(a) < CreatedAt(b) then -1
    else if CreatedAt(a) > CreatedAt(b) then 1
    else 0
  }

  /** The inputs on which the call panics: a nil merge request is dereferenced
      by the rendering loop (main.go:185), and with two or more entries every
      entry reaches the comparator, which dereferences a nil creation time
      (main.go:175). */
  predicate Panics(s: seq<Entry>) {
    || (exists i :: 0 <= i < |s| && s[i].None?)
    || (|s| >= 2 && exists i :: 0 <= i < |s| && s[i].Some? && s[i].value.createdAt.None?)
  }

  /** Oldest first; two or more entries all carry a creation time. */
  predicate Sorted(s: seq<Entry>) {
    forall i, j :: 0 <= i < j < |s| ==>
      HasTime(s[i]) && HasTime(s[j]) && CreatedAt(s[i]) <= CreatedAt(s[j])
  }

  predicate NoNil(s: seq<Entry>) {
    forall i :: 0 <= i < |s| ==> s[i].Some?
  }

  /** The author's name, "unknown" without an author (main.go:194-197). */
  function AuthorName(mr: MergeRequest): (r: string)
    ensures mr.author.Some? ==> r == mr.author.value
    ensures mr.author.None? ==> r == "unknown"
  {
    mr.author.GetOr("unknown")
  }

  /** The age column (main.go:184-192). */
  function LiveTime(mr: MergeRequest, now: Time): string {
    var createdAt := mr.createdAt.GetOr(ZeroTime);
    if IsZero(createdAt) then "unknown" else HumanDuration(now, createdAt)
  }

  /** The age column is "unknown" exactly when the creation time is absent or
      Go's zero time; otherwise it reads back as the bucket holding the
      elapsed time. */
  lemma LiveTimeMeaning(mr: MergeRequest, now: Time)
    ensures LiveTime(mr, now) == "unknown" <==> mr.createdAt.None? || IsZero(mr.createdAt.value)
    ensures LiveTime(mr, now) != "unknown" ==>
      var a := ParseAge(LiveTime(mr, now));
      a.Some? && WellFormed(a.value) && InBucket(now - mr.createdAt.value, a.value)
  {
    assert ParseAge("unknown") == None by {
      assert SplitDigits("unknown").0 == [];
    }
    if mr.createdAt.Some? && !IsZero(mr.createdAt.value) {
      HumanDurationReadsBack(now, mr.createdAt.value);
    }
  }

  /** The strings of `parts`, one after another. */
  function Concat(parts: seq<string>): string {
    if parts == [] then "" else Concat(parts[..|parts| - 1]) + parts[|parts| - 1]
  }

  /** The bullet line of main.go:199-205. */
  function Line(mr: MergeRequest, now: Time): string {
    Concat(["• <", mr.webURL, "|", mr.title, "> - ", AuthorName(mr), " *", LiveTime(mr, now), "*\n"])
  }

  /** The bullet line of each entry, in order. */
  function LineTexts(s: seq<Entry>, now: Time): seq<string>
    requires NoNil(s)
  {
    seq(|s|, i requires 0 <= i < |s| => Line(s[i].value, now))
  }

  /** The bullet lines of `s`, in order. */
  function Lines(s: seq<Entry>, now: Time): string
    requires NoNil(s)
  {
    Concat(LineTexts(s, now))
  }

  /** Concatenation distributes over joining the parts. */
  lemma {:induction false} ConcatAppend(p: seq<string>, q: seq<string>)
    ensures Concat(p + q) == Concat(p) + Concat(q)
  {
    if q == [] {
      assert p + q == p;
    } else {
      var u := q[..|q| - 1];
      assert (p + q)[..|p + q| - 1] == p + u;
      ConcatAppend(p, u);
    }
  }

  /** Appending one part appends its text. */
  lemma ConcatSnoc(p: seq<string>, x: string)
    ensures Concat(p + [x]) == Concat(p) + x
  {
    assert (p + [x])[..|p|] == p;
  }

  /** The lines of a concatenation are the concatenated lines. */
  lemma LinesAppend(s: seq<Entry>, t: seq<Entry>, now: Time)
    requires NoNil(s) && NoNil(t)
    ensures NoNil(s + t) && Lines(s + t, now) == Lines(s, now) + Lines(t, now)
  {
    assert LineTexts(s + t, now) == LineTexts(s, now) + LineTexts(t, now);
    ConcatAppend(LineTexts(s, now), LineTexts(t, now));
  }

  /** Entry `i` contributes exactly its own line, after the lines of the
      entries before it and before the lines of those after it. */
  lemma LineAt(s: seq<Entry>, i: nat, now: Time)
    requires NoNil(s) && i < |s|
    ensures Lines(s, now) == Lines(s[..i], now) + Line(s[i].value, now) + Lines(s[i + 1..], now)
  {
    assert s == s[..i] + [s[i]] + s[i + 1..];
    LinesAppend(s[..i], [s[i]], now);
    LinesAppend(s[..i] + [s[i]], s[i + 1..], now);
    assert Lines([s[i]], now) == Line(s[i].value, now) by {
      var line := Line(s[i].value, now);
      assert LineTexts([s[i]], now) == [] + [line];
      ConcatSnoc([], line);
    }
  }

  /** `data.Swap(j, j-1)`: exchanges two neighbours and nothing else. */
  method Swap(a: array<Entry>, j: nat)
    requires 0 < j < a.Length
    modifies a
    ensures a[j] == old(a[j - 1]) && a[j - 1] == old(a[j])
    ensures forall k :: 0 <= k < a.Length && k != j && k != j - 1 ==> a[k] == old(a[k])
    ensures multiset(a[..]) == multiset(old(a[..]))
  {
    a[j], a[j - 1] := a[j - 1], a[j];
  }

  /** One pass of Go's insertion sort: the entry at `i` moves left past every
      neighbour the comparator puts after it, so that `a[..i + 1]` is oldest
      first. */
  method InsertSorted(a: array<Entry>, i: nat)
    requires 1 <= i < a.Length
    requires forall k :: 0 <= k < a.Length ==> HasTime(a[k])
    requires forall k, l :: 0 <= k < l < i ==> CreatedAt(a[k]) <= CreatedAt(a[l])
    modifies a
    ensures forall k :: 0 <= k < a.Length ==> HasTime(a[k])
    ensures forall k, l :: 0 <= k < l <= i ==> CreatedAt(a[k]) <= CreatedAt(a[l])
    ensures a[i + 1..] == old(a[i + 1..])
    ensures multiset(a[..]) == multiset(old(a[..]))
  {
    var j := i;
    while j > 0 && Compare(a[j], a[j - 1]) < 0
      invariant 0 <= j <= i
      invariant forall k :: 0 <= k < a.Length ==> HasTime(a[k])
      invariant forall k, l :: 0 <= k < l <= i && k != j && l != j ==>
        CreatedAt(a[k]) <= CreatedAt(a[l])
      invariant forall l :: j < l <= i ==> CreatedAt(a[j]) <= CreatedAt(a[l])
      invariant a[i + 1..] == old(a[i + 1..])
      invariant multiset(a[..]) == multiset(old(a[..]))
    {
      Swap(a, j);
      j := j - 1;
    }
  }

  /** `slices.SortFunc(mrs, cmp)` on a slice that does not panic: oldest
      first, as Go's insertion sort for short slices orders it. */
  method SortByCreation(a: array<Entry>)
    requires a.Length >= 1
    requires a.Length >= 2 ==> forall k :: 0 <= k < a.Length ==> HasTime(a[k])
    modifies a
    ensures Sorted(a[..])
    ensures multiset(a[..]) == multiset(old(a[..]))
  {
    var i := 1;
    while i < a.Length
      invariant 1 <= i <= a.Length
      invariant a.Length >= 2 ==> forall k :: 0 <= k < a.Length ==> HasTime(a[k])
      invariant forall k, l :: 0 <= k < l < i ==> CreatedAt(a[k]) <= CreatedAt(a[l])
      invariant multiset(a[..]) == multiset(old(a[..]))
    {
      InsertSorted(a, i);
      i := i + 1;
    }
  }

  /** No two entries share a creation time. */
  predicate DistinctTimes(s: seq<Entry>) {
    forall i, j :: 0 <= i < j < |s| ==>
      HasTime(s[i]) && HasTime(s[j]) && CreatedAt(s[i]) != CreatedAt(s[j])
  }

  /** Two oldest-first orders of the same entries start with the same entry
      when the first has no tie. */
  lemma SortedHeadsAgree(p: seq<Entry>, q: seq<Entry>)
    requires Sorted(p) && Sorted(q) && multiset(p) == multiset(q)
    requires DistinctTimes(p) && |p| > 0
    ensures |q| == |p| && p[0] == q[0]
  {
    assert |p| == |multiset(p)| == |multiset(q)| == |q|;
    assert p[0] in multiset(q) && q[0] in multiset(p);
    var k :| 0 <= k < |q| && q[k] == p[0];
    var m :| 0 <= m < |p| && p[m] == q[0];
    assert m == 0;
  }

  /** Removing the same first entry from two permutations leaves permutations. */
  lemma TailsPermutation(p: seq<Entry>, q: seq<Entry>)
    requires multiset(p) == multiset(q) && |p| > 0 && |q| > 0 && p[0] == q[0]
    ensures multiset(p[1..]) == multiset(q[1..])
  {
    assert p == [p[0]] + p[1..] && q == [q[0]] + q[1..];
    assert multiset(p[1..]) == multiset(p) - multiset([p[0]]);
    assert multiset(q[1..]) == multiset(q) - multiset([q[0]]);
  }

  /** When no two merge requests were created at the same instant, there is
      only one oldest-first order, so the unstable sort's output is fixed. */
  lemma {:induction false} SortedPermutationUnique(p: seq<Entry>, q: seq<Entry>)
    requires Sorted(p) && Sorted(q) && multiset(p) == multiset(q)
    requires DistinctTimes(p)
    ensures p == q
  {
    if |p| == 0 {
      assert |q| == |multiset(q)| == 0;
    } else {
      SortedHeadsAgree(p, q);
      TailsPermutation(p, q);
      SortedPermutationUnique(p[1..], q[1..]);
      assert p == [p[0]] + p[1..] && q == [q[0]] + q[1..];
    }
  }

  /** With equal creation times the order is not fixed: two merge requests
      of the same instant whose lines differ may come out either way round,
      and the digests then differ. */
  lemma TiesMayReorder(x: MergeRequest, y: MergeRequest, now: Time)
    requires x.createdAt.Some? && x.createdAt == y.createdAt
    requires Line(x, now) != Line(y, now) && |Line(x, now)| == |Line(y, now)|
    ensures var p, q := [Some(x), Some(y)], [Some(y), Some(x)];
      && Sorted(p) && Sorted(q) && multiset(p) == multiset(q)
      && Lines(p, now) != Lines(q, now)
  {
    var p, q := [Some(x), Some(y)], [Some(y), Some(x)];
    LineAt(p, 0, now);
    LineAt(q, 0, now);
    assert p[..0] == [] && q[..0] == [];
    assert Lines([], now) == "";
    var n := |Line(x, now)|;
    assert Lines(p, now)[..n] == Line(x, now);
    assert Lines(q, now)[..n] == Line(y, now);
  }

  /** Oldest first means the most alarming glyph first: down the digest the
      warning of a dated entry never escalates. */
  lemma WarningsDescend(s: seq<Entry>, i: nat, j: nat, now: Time)
    requires Sorted(s) && i < j < |s|
    ensures HasTime(s[i]) && HasTime(s[j])
    ensures Severity(WarningOf(Classify(now - CreatedAt(s[j]))))
         <= Severity(WarningOf(Classify(now - CreatedAt(s[i]))))
  {
    assert HasTime(s[i]) && HasTime(s[j]) && CreatedAt(s[i]) <= CreatedAt(s[j]);
    WarningEscalates(now - CreatedAt(s[j]), now - CreatedAt(s[i]));
  }

  /** With two or more entries that do not panic every creation time is
      present, so an "unknown" age only ever stands for Go's zero time. */
  lemma UnknownAgeMeansZeroTime(s: seq<Entry>, now: Time)
    requires !Panics(s) && |s| >= 2
    ensures NoNil(s)
    ensures forall i :: 0 <= i < |s| ==>
      HasTime(s[i]) && (LiveTime(s[i].value, now) == "unknown" <==> IsZero(CreatedAt(s[i])))
  {
    forall i | 0 <= i < |s|
      ensures HasTime(s[i]) && (LiveTime(s[i].value, now) == "unknown" <==> IsZero(CreatedAt(s[i])))
    {
      LiveTimeMeaning(s[i].value, now);
    }
  }

  /** A single merge request never reaches the comparator: it panics only
      when the pointer itself is nil, whatever its creation time. */
  lemma SingleEntryPanics(e: Entry)
    ensures Panics([e]) <==> e.None?
  {
    if e.None? {
      assert [e][0].None?;
    }
  }

  /** A permutation of a slice without nil entries has none either. */
  lemma NoNilPermutation(s: seq<Entry>, t: seq<Entry>)
    requires multiset(s) == multiset(t) && NoNil(s)
    ensures NoNil(t)
  {
    forall k | 0 <= k < |t| ensures t[k].Some? {
      assert t[k] in multiset(s);
    }
  }

  /** The loop of main.go:183-206: after the header already in the builder,
      one bullet line per merge request, in slice order. */
  method WriteLines(mrs: array<Entry>, now: Time) returns (b: string)
    requires NoNil(mrs[..])
    ensures b == Header + Lines(mrs[..], now)
  {
    b := Header;
    for i := 0 to mrs.Length
      invariant b == Header + Lines(mrs[..i], now)
    {
      var line := Line(mrs[i].value, now);
      assert LineTexts(mrs[..i + 1], now) == LineTexts(mrs[..i], now) + [line];
      ConcatSnoc(LineTexts(mrs[..i], now), line);
      b := b + line;
    }
    assert mrs[..mrs.Length] == mrs[..];
  }

  /** `formatMRsForSlack(mrs)` with the clock reading `now` for every line.
      The model decides the panic before touching the slice; Go may panic
      part-way through the sort, so only a permutation is promised then. */
  method FormatMRsForSlack(mrs: array<Entry>, now: Time) returns (out: Outcome)
    modifies mrs
    ensures multiset(mrs[..]) == multiset(old(mrs[..]))
    ensures mrs.Length == 0 ==> out == Rendered(NoOpenMergeRequests)
    ensures out.Panicked? <==> Panics(old(mrs[..]))
    ensures out.Rendered? && mrs.Length > 0 ==>
      && NoNil(mrs[..]) && Sorted(mrs[..])
      && out.text == Header + Lines(mrs[..], now)
  {
    if mrs.Length == 0 {
      return Rendered(NoOpenMergeRequests);
    }
    if Panics(mrs[..]) {
      return Panicked;
    }
    SortByCreation(mrs);
    NoNilPermutation(old(mrs[..]), mrs[..]);
    var text := WriteLines(mrs, now);
    return Rendered(text);
  }
}
