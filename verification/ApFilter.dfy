/** wifi_manager_filter_unique: the scan result, filtered in place to one record per network. */
module ApFilter {

  /**
   * One scan record: the C string in its ssid array, the fields the manager reads, and the rest
   * of the record as one number.
   */
  datatype Ap = Ap(ssid: string, authmode: int, rssi: int, primary: int, other: int)

  const CLEARED := Ap("", 0, 0, 0, 0)

  predicate SameNetwork(a: Ap, b: Ap)
  {
    a.ssid == b.ssid && a.authmode == b.authmode
  }

  /** Record i is the first of its network. */
  predicate Head(s: seq<Ap>, i: nat)
    requires i < |s|
  {
    s[i].ssid != "" && forall j :: 0 <= j < i ==> !SameNetwork(s[j], s[i])
  }

  /** The strongest signal among record i and the later ones of its network below n. */
  function Strongest(s: seq<Ap>, i: nat, n: nat): int
    requires i < n <= |s|
  {
    if n == i + 1 then s[i].rssi
    else
      var m := Strongest(s, i, n - 1);
      if SameNetwork(s[n - 1], s[i]) && s[n - 1].rssi > m then s[n - 1].rssi else m
  }

  /** The first phase: heads carry the strongest signal, their repetitions are cleared. */
  function Merged(s: seq<Ap>, i: nat): Ap
    requires i < |s|
  {
    if s[i].ssid == "" then s[i]
    else if Head(s, i) then s[i].(rssi := Strongest(s, i, |s|))
    else CLEARED
  }

  function MergeAll(s: seq<Ap>): (m: seq<Ap>)
    ensures |m| == |s|
    ensures forall i :: 0 <= i < |s| ==> m[i] == Merged(s, i)
  {
    seq(|s|, i requires 0 <= i < |s| => Merged(s, i))
  }

  /** The named records, in order. */
  function Named(s: seq<Ap>): (r: seq<Ap>)
    ensures |r| <= |s|
    ensures forall a :: a in r ==> a.ssid != "" && a in s
  {
    if s == [] then []
    else
      var last := s[|s| - 1];
      Named(s[..|s| - 1]) + if last.ssid == "" then [] else [last]
  }

  /** What stays in a slot that is not part of the result. */
  function Leftover(a: Ap): Ap
  {
    if a.ssid == "" then a else CLEARED
  }

  /** The networks of a scan: one record each. */
  function Unique(s: seq<Ap>): (r: seq<Ap>)
    ensures |r| <= |s|
  {
    Named(MergeAll(s))
  }

  // ------------------------------------------------- what the specification means

  lemma {:induction false} StrongestIsMax(s: seq<Ap>, i: nat, n: nat)
    requires i < n <= |s|
    ensures forall j :: i <= j < n && SameNetwork(s[j], s[i]) ==> s[j].rssi <= Strongest(s, i, n)
    ensures exists j :: i <= j < n && SameNetwork(s[j], s[i]) && s[j].rssi == Strongest(s, i, n)
  {
    if n == i + 1 {
      assert SameNetwork(s[i], s[i]);
    } else {
      StrongestIsMax(s, i, n - 1);
      if SameNetwork(s[n - 1], s[i]) && s[n - 1].rssi > Strongest(s, i, n - 1) {
        assert s[n - 1].rssi == Strongest(s, i, n);
      } else {
        var j :| i <= j < n - 1 && SameNetwork(s[j], s[i]) && s[j].rssi == Strongest(s, i, n - 1);
        assert s[j].rssi == Strongest(s, i, n);
      }
    }
  }

  /** The positions of the heads below n, in increasing order. */
  function Heads(s: seq<Ap>, n: nat): (h: seq<nat>)
    requires n <= |s|
    ensures forall k :: 0 <= k < |h| ==> h[k] < n && Head(s, h[k])
    ensures forall j, k :: 0 <= j < k < |h| ==> h[j] < h[k]
    ensures forall i :: 0 <= i < n && Head(s, i) ==> i in h
  {
    if n == 0 then []
    else if Head(s, n - 1) then Heads(s, n - 1) + [n - 1]
    else Heads(s, n - 1)
  }

  lemma NamedSnoc(m: seq<Ap>, a: Ap)
    ensures Named(m + [a]) == Named(m) + if a.ssid == "" then [] else [a]
  {
    assert (m + [a])[..|m|] == m;
  }

  lemma HeadsAreNamed(s: seq<Ap>, i: nat)
    requires i < |s|
    ensures Merged(s, i).ssid != "" <==> Head(s, i)
  {
    hide Strongest;
  }

  lemma HeadsSnoc(s: seq<Ap>, n: nat)
    requires 0 < n <= |s|
    ensures Heads(s, n) == Heads(s, n - 1) + if Head(s, n - 1) then [n - 1] else []
  {
    hide Head;
  }

  /** The records are the merged ones at these positions. */
  predicate MergedAt(s: seq<Ap>, h: seq<nat>, r: seq<Ap>)
  {
    |r| == |h| && forall k :: 0 <= k < |h| ==> h[k] < |s| && r[k] == Merged(s, h[k])
  }

  lemma MergedAtSnoc(s: seq<Ap>, h: seq<nat>, r: seq<Ap>, i: nat, head: bool, h': seq<nat>, r': seq<Ap>)
    requires MergedAt(s, h, r) && i < |s|
    requires h' == h + if head then [i] else []
    requires r' == r + if head then [Merged(s, i)] else []
    ensures MergedAt(s, h', r')
  {
    hide Merged;
  }

  lemma SliceSnoc(m: seq<Ap>, n: nat)
    requires 0 < n <= |m|
    ensures m[..n] == m[..n - 1] + [m[n - 1]]
  {
  }

  lemma {:induction false} NamedAreHeads(s: seq<Ap>, n: nat)
    requires n <= |s|
    ensures MergedAt(s, Heads(s, n), Named(MergeAll(s)[..n]))
  {
    if n > 0 {
      NamedAreHeads(s, n - 1);
      NextHeadIsNamed(s, n);
    }
  }

  lemma NextHeadIsNamed(s: seq<Ap>, n: nat)
    requires 0 < n <= |s| && MergedAt(s, Heads(s, n - 1), Named(MergeAll(s)[..n - 1]))
    ensures MergedAt(s, Heads(s, n), Named(MergeAll(s)[..n]))
  {
    hide Named, Merged, Head, Heads, MergedAt, MergeAll;
    var m := MergeAll(s);
    HeadsAreNamed(s, n - 1);
    HeadsSnoc(s, n);
    SliceSnoc(m, n);
    NamedSnoc(m[..n - 1], m[n - 1]);
    MergedAtSnoc(s, Heads(s, n - 1), Named(m[..n - 1]), n - 1, Head(s, n - 1), Heads(s, n), Named(m[..n]));
  }

  /**
   * The result in the scan's own terms: the first record of every named network, in scan order,
   * with the strongest signal of its network and its other fields unchanged.
   */
  lemma UniqueIsFirstOfEachNetwork(s: seq<Ap>)
    ensures var h, r := Heads(s, |s|), Unique(s);
            && |r| == |h|
            && (forall k :: 0 <= k < |r| ==> r[k] == s[h[k]].(rssi := Strongest(s, h[k], |s|)))
  {
    NamedAreHeads(s, |s|);
    assert MergeAll(s)[..|s|] == MergeAll(s);
  }

  /** No network appears twice, and every named record is represented by a signal as strong. */
  lemma UniqueCoversEveryNetworkOnce(s: seq<Ap>)
    ensures forall j, k :: 0 <= j < k < |Unique(s)| ==> !SameNetwork(Unique(s)[j], Unique(s)[k])
    ensures forall i :: 0 <= i < |s| && s[i].ssid != "" ==>
              exists k :: 0 <= k < |Unique(s)| && SameNetwork(Unique(s)[k], s[i])
                          && s[i].rssi <= Unique(s)[k].rssi
  {
    var h, r := Heads(s, |s|), Unique(s);
    UniqueIsFirstOfEachNetwork(s);
    forall j, k | 0 <= j < k < |r| ensures !SameNetwork(r[j], r[k]) {
      assert !SameNetwork(s[h[j]], s[h[k]]);
    }
    forall i | 0 <= i < |s| && s[i].ssid != ""
      ensures exists k :: 0 <= k < |r| && SameNetwork(r[k], s[i]) && s[i].rssi <= r[k].rssi
    {
      var f := FirstOfNetwork(s, i);
      var k :| 0 <= k < |h| && h[k] == f;
      StrongestIsMax(s, f, |s|);
      assert SameNetwork(r[k], s[i]);
    }
  }

  /**
   * The same in the records' own fields: no two results agree in name and mode, every named record
   * has a result with its name, its mode and a signal at least as strong, and each result's
   * signal was measured for that name and mode.
   */
  lemma UniqueInFields(s: seq<Ap>)
    ensures var r := Unique(s);
            && (forall j, k :: 0 <= j < k < |r| ==> r[j].ssid != r[k].ssid || r[j].authmode != r[k].authmode)
            && (forall i :: 0 <= i < |s| && s[i].ssid != "" ==>
                  exists k :: 0 <= k < |r| && r[k].ssid == s[i].ssid && r[k].authmode == s[i].authmode
                              && s[i].rssi <= r[k].rssi)
            && (forall k :: 0 <= k < |r| ==>
                  exists j :: 0 <= j < |s| && s[j].ssid == r[k].ssid && s[j].authmode == r[k].authmode
                              && s[j].rssi == r[k].rssi)
  {
    hide Unique, Strongest, Heads, Head;
    var h, r := Heads(s, |s|), Unique(s);
    UniqueIsFirstOfEachNetwork(s);
    UniqueCoversEveryNetworkOnce(s);
    forall j, k | 0 <= j < k < |r| ensures r[j].ssid != r[k].ssid || r[j].authmode != r[k].authmode {
      assert !SameNetwork(r[j], r[k]);
    }
    forall i | 0 <= i < |s| && s[i].ssid != ""
      ensures exists k :: 0 <= k < |r| && r[k].ssid == s[i].ssid && r[k].authmode == s[i].authmode
                          && s[i].rssi <= r[k].rssi
    {
      var k :| 0 <= k < |r| && SameNetwork(r[k], s[i]) && s[i].rssi <= r[k].rssi;
      assert r[k].ssid == s[i].ssid;
    }
    forall k | 0 <= k < |r|
      ensures exists j :: 0 <= j < |s| && s[j].ssid == r[k].ssid && s[j].authmode == r[k].authmode
                          && s[j].rssi == r[k].rssi
    {
      StrongestIsMax(s, h[k], |s|);
      var j :| h[k] <= j < |s| && SameNetwork(s[j], s[h[k]]) && s[j].rssi == Strongest(s, h[k], |s|);
      assert s[j].ssid == r[k].ssid;
    }
  }

  /** Each result is the first record of its name and mode but for the signal, in scan order. */
  lemma UniquePositions(s: seq<Ap>) returns (at: seq<nat>)
    ensures var r := Unique(s);
            && |at| == |r|
            && (forall k :: 0 <= k < |r| ==> at[k] < |s| && s[at[k]].ssid != "")
            && (forall k :: 0 <= k < |r| ==> r[k] == s[at[k]].(rssi := r[k].rssi))
            && (forall j, k :: 0 <= j < k < |r| ==> at[j] < at[k])
            && (forall i, k :: 0 <= k < |r| && 0 <= i < at[k] ==>
                  s[i].ssid != s[at[k]].ssid || s[i].authmode != s[at[k]].authmode)
  {
    hide Unique, Strongest;
    UniqueIsFirstOfEachNetwork(s);
    at := Heads(s, |s|);
  }

  lemma {:induction false} FirstOfNetwork(s: seq<Ap>, i: nat) returns (f: nat)
    requires i < |s| && s[i].ssid != ""
    ensures f <= i && Head(s, f) && SameNetwork(s[f], s[i])
  {
    f := i;
    if j :| 0 <= j < i && SameNetwork(s[j], s[i]) {
      f := FirstOfNetwork(s, j);
    }
  }

  /** A scan with at least one named record gives a non-empty list. */
  lemma UniqueNonEmpty(s: seq<Ap>)
    ensures Unique(s) != [] <==> exists i :: 0 <= i < |s| && s[i].ssid != ""
  {
    UniqueCoversEveryNetworkOnce(s);
    UniqueIsFirstOfEachNetwork(s);
    if Unique(s) != [] {
      assert s[Heads(s, |s|)[0]].ssid != "";
    }
  }

  // --------------------------------------------------------------- the algorithm

  /** The state of slot p while record i is compared with the records below j. */
  function DuringMerge(s: seq<Ap>, p: nat, i: nat, j: nat): Ap
    requires p < |s| && i < j <= |s|
  {
    if p < i then Merged(s, p)
    else if s[p].ssid == "" then s[p]
    else if exists q :: 0 <= q < i && SameNetwork(s[q], s[p]) then CLEARED
    else if p == i then s[p].(rssi := Strongest(s, i, j))
    else if p < j && SameNetwork(s[i], s[p]) then CLEARED
    else s[p]
  }

  /** The outer loop clears the later records of every network it meets. */
  method MergeDuplicates(a: array<Ap>, n: nat)
    requires n <= a.Length
    modifies a
    ensures a[..n] == MergeAll(old(a[..n]))
    ensures forall p :: n <= p < a.Length ==> a[p] == old(a[p])
  {
    ghost var s := a[..n];
    var i := 0;
    while i < n - 1
      invariant n == 0 ==> i == 0
      invariant n > 0 ==> 0 <= i < n
      invariant forall p :: 0 <= p < n ==> a[p] == DuringMerge(s, p, i, i + 1)
      invariant forall p :: n <= p < a.Length ==> a[p] == old(a[p])
    {
      if a[i].ssid != "" {
        AbsorbLater(a, n, i, s);
      }
      forall p | 0 <= p < n ensures a[p] == DuringMerge(s, p, i + 1, i + 2) {
        NextHead(s, p, i);
      }
      i := i + 1;
    }
    forall p | 0 <= p < n ensures a[p] == Merged(s, p) {
      if p == n - 1 { assert a[p] == DuringMerge(s, p, n - 1, n); }
    }
  }

  /** The inner loop: record i takes the strongest signal of its network and clears the others. */
  method AbsorbLater(a: array<Ap>, n: nat, i: nat, ghost s: seq<Ap>)
    requires i < n <= a.Length && |s| == n && a[i].ssid != ""
    requires forall p :: 0 <= p < n ==> a[p] == DuringMerge(s, p, i, i + 1)
    modifies a
    ensures forall p :: 0 <= p < n ==> a[p] == DuringMerge(s, p, i, n)
    ensures forall p :: n <= p < a.Length ==> a[p] == old(a[p])
  {
    var j := i + 1;
    while j < n
      invariant i + 1 <= j <= n
      invariant forall p :: 0 <= p < n ==> a[p] == DuringMerge(s, p, i, j)
      invariant forall p :: n <= p < a.Length ==> a[p] == old(a[p])
    {
      if SameNetwork(a[i], a[j]) {
        if a[j].rssi > a[i].rssi {
          a[i] := a[i].(rssi := a[j].rssi);
        }
        a[j] := CLEARED;
      }
      j := j + 1;
    }
  }

  /** Having compared record i with all the others, the loop is ready for record i + 1. */
  lemma NextHead(s: seq<Ap>, p: nat, i: nat)
    requires p < |s| && i + 1 < |s|
    ensures DuringMerge(s, p, i + 1, i + 2)
         == if DuringMerge(s, i, i, |s|).ssid != "" then DuringMerge(s, p, i, |s|)
            else DuringMerge(s, p, i, i + 1)
  {
  }

  /** How many of the first i records are named. */
  function Count(m: seq<Ap>, i: nat): (k: nat)
    requires i <= |m|
    ensures k <= i
  {
    |Named(m[..i])|
  }

  /** The state of slot p once the first i records have been placed. */
  function DuringCompact(m: seq<Ap>, i: nat, p: nat): Ap
    requires i <= |m| && p < |m|
  {
    if p < Count(m, i) then Named(m[..i])[p]
    else if p < i then Leftover(m[p])
    else m[p]
  }

  lemma PlaceNext(m: seq<Ap>, i: nat, p: nat)
    requires i < |m| && p < |m|
    ensures DuringCompact(m, i + 1, p)
         == if m[i].ssid == "" then DuringCompact(m, i, p)
            else if p == Count(m, i) then m[i]
            else if p == i then CLEARED
            else DuringCompact(m, i, p)
    ensures Count(m, i + 1) == Count(m, i) + if m[i].ssid == "" then 0 else 1
  {
    assert m[..i + 1][..i] == m[..i];
  }

  /** Below the cursor slots are named, from the cursor to record i they are free. */
  lemma CursorSplits(m: seq<Ap>, i: nat, p: nat)
    requires i <= |m| && p < i
    ensures DuringCompact(m, i, p).ssid == "" <==> Count(m, i) <= p
  {
    if p < Count(m, i) {
      assert Named(m[..i])[p] in Named(m[..i]);
    }
  }

  /** The slots before and after record i is placed. */
  lemma Placed(m: seq<Ap>, i: nat, before: seq<Ap>, after: seq<Ap>)
    requires i < |m| == |before| == |after|
    requires forall p :: 0 <= p < |m| ==> before[p] == DuringCompact(m, i, p)
    requires after == if m[i].ssid == "" || Count(m, i) == i then before
                      else before[Count(m, i) := m[i]][i := CLEARED]
    ensures forall p :: 0 <= p < |m| ==> after[p] == DuringCompact(m, i + 1, p)
    ensures Count(m, i + 1) == Count(m, i) + if m[i].ssid == "" then 0 else 1
  {
    hide Named, Count, Leftover;
    forall p | 0 <= p < |m| ensures after[p] == DuringCompact(m, i + 1, p) {
      hide DuringCompact;
      PlaceNext(m, i, p);
      assert DuringCompact(m, i, i) == m[i] by { AtRecord(m, i); }
    }
    PlaceNext(m, i, i);
  }

  lemma AtRecord(m: seq<Ap>, i: nat)
    requires i < |m|
    ensures DuringCompact(m, i, i) == m[i]
  {
  }

  lemma NothingPlaced(m: seq<Ap>)
    ensures Count(m, 0) == 0
    ensures forall p :: 0 <= p < |m| ==> DuringCompact(m, 0, p) == m[p]
  {
  }

  /** The slots the cursor splits, on the list itself. */
  lemma Split(m: seq<Ap>, i: nat, now: seq<Ap>)
    requires i < |m| == |now|
    requires forall p :: 0 <= p < |m| ==> now[p] == DuringCompact(m, i, p)
    ensures forall p :: 0 <= p < Count(m, i) ==> now[p].ssid != ""
    ensures forall p :: Count(m, i) <= p < i ==> now[p].ssid == ""
    ensures now[i] == m[i]
  {
    hide DuringCompact, Count, Named;
    forall p | 0 <= p < i { CursorSplits(m, i, p); }
    AtRecord(m, i);
  }

  /** The second phase moves the named records to the front with a cursor on the first free slot. */
  method Compact(a: array<Ap>, n: nat) returns (total: nat)
    requires n <= a.Length
    modifies a
    ensures var m := old(a[..n]);
            total == Count(m, n) && forall p :: 0 <= p < n ==> a[p] == DuringCompact(m, n, p)
    ensures forall p :: n <= p < a.Length ==> a[p] == old(a[p])
  {
    hide Leftover, SameNetwork, Named, DuringCompact, Count;
    ghost var m := a[..n];
    NothingPlaced(m);
    total := n;
    var firstFree := -1;
    var i := 0;
    while i < n
      invariant 0 <= i <= n
      invariant total == n - (i - Count(m, i))
      invariant firstFree == if Count(m, i) < i then Count(m, i) else -1
      invariant forall p :: 0 <= p < n ==> a[p] == DuringCompact(m, i, p)
      invariant forall p :: n <= p < a.Length ==> a[p] == old(a[p])
    {
      ghost var before := a[..n];
      Split(m, i, before);
      if a[i].ssid == "" {
        if firstFree == -1 {
          firstFree := i;
        }
        total := total - 1;
      } else if firstFree != -1 {
        firstFree := MoveToFree(a, n, firstFree, i);
      }
      Placed(m, i, before, a[..n]);
      i := i + 1;
    }
  }

  /** A named record moves to the free slot and its own slot is cleared. */
  method MoveToFree(a: array<Ap>, n: nat, free: nat, i: nat) returns (next: int)
    requires free < i < n <= a.Length && a[i].ssid != ""
    requires forall p :: 0 <= p < free ==> a[p].ssid != ""
    requires forall p :: free <= p < i ==> a[p].ssid == ""
    modifies a
    ensures a[free] == old(a[i]) && a[i] == CLEARED && next == free + 1
    ensures forall p :: 0 <= p < a.Length && p != free && p != i ==> a[p] == old(a[p])
  {
    a[free] := a[i];
    a[i] := CLEARED;
    next := FindFree(a, n, free, free + 1);
  }

  /** The search for the next free slot starts from the beginning of the list. */
  method FindFree(a: array<Ap>, n: nat, current: int, ghost free: nat) returns (first: int)
    requires free < n <= a.Length && a[free].ssid == ""
    requires forall p :: 0 <= p < free ==> a[p].ssid != ""
    ensures first == free
  {
    first := current;
    var j := 0;
    while j < n
      invariant 0 <= j <= free
    {
      if a[j].ssid == "" {
        return j;
      }
      j := j + 1;
    }
  }

  /**
   * The list in place: its networks first, then what the unused slots keep. aps is the count
   * passed in and out.
   */
  method FilterUnique(a: array<Ap>, aps: nat) returns (unique: nat)
    requires aps <= a.Length
    modifies a
    ensures var s := old(a[..aps]);
            && unique == |Unique(s)|
            && a[..unique] == Unique(s)
            && forall p :: unique <= p < aps ==> a[p] == Leftover(s[p])
    ensures forall p :: aps <= p < a.Length ==> a[p] == old(a[p])
  {
    ghost var s := a[..aps];
    MergeDuplicates(a, aps);
    unique := Compact(a, aps);
    assert MergeAll(s)[..aps] == MergeAll(s);
    forall p | unique <= p < aps ensures a[p] == Leftover(s[p]) {
      assert a[p] == Leftover(MergeAll(s)[p]);
    }
  }

  /**
   * A slot past the result is all zeros exactly when it held a named record or was zero before:
   * the record of a hidden network, whose SSID is empty, survives there.
   */
  lemma LeftoverIsClear(a: Ap)
    ensures Leftover(a) == Ap("", 0, 0, 0, 0) <==> a.ssid != "" || a == Ap("", 0, 0, 0, 0)
  {
  }

  /** One hidden network: nothing is listed and its record stays where it was. */
  lemma HiddenNetworkStays()
    ensures var s := [Ap("", 3, -40, 6, 1)];
            Unique(s) == [] && Leftover(s[0]) != CLEARED
  {
    var s := [Ap("", 3, -40, 6, 1)];
    assert MergeAll(s)[..0] == [];
    assert Named(MergeAll(s)) == Named(MergeAll(s)[..0]) + [];
  }
}
