/** The greedy IoU tracker of detector.py:11-73.

    The source keeps its tracks in a dict keyed by track id. Ids come only
    from a counter that never goes down, and an existing key keeps its place
    when its value changes, so the dict's iteration order is ascending id
    order. The table is therefore modelled as a sequence of tracks sorted
    strictly by id, and the dict that `update` returns as the sequence of
    its (id, box) items in insertion order. */
module IouTracking {
  import opened Options
  import opened Geometry

  datatype Track = Track(id: nat, box: Box, lost: nat)

  /** The tracker's state: the id counter, the table, and its two settings. */
  datatype Tracker = Tracker(nextId: nat, tracks: seq<Track>, maxLost: int, iouThresh: real)

  /** One item of the mapping `update` returns: a track id and the box it got. */
  datatype Assigned = Assigned(id: nat, box: Box)

  datatype UpdateResult = UpdateResult(tracker: Tracker, mapping: seq<Assigned>)

  /** The constructor defaults (detector.py:12). */
  const DefaultMaxLost: int := 5
  const DefaultIouThresh: real := 0.35

  predicate SortedIds(ts: seq<Track>)
  {
    forall i, j :: 0 <= i < j < |ts| ==> ts[i].id < ts[j].id
  }

  predicate SortedAssigned(a: seq<Assigned>)
  {
    forall i, j :: 0 <= i < j < |a| ==> a[i].id < a[j].id
  }

  /** The state every reachable tracker is in: the table is in ascending id
      order and the counter is past every id in it. */
  predicate Valid(t: Tracker)
  {
    && SortedIds(t.tracks)
    && forall i :: 0 <= i < |t.tracks| ==> t.tracks[i].id < t.nextId
  }

  /** `id` belongs to some track of the table. */
  predicate HasTrack(ts: seq<Track>, id: nat)
  {
    exists i :: 0 <= i < |ts| && ts[i].id == id
  }

  /** `id` is a key of the returned mapping. */
  predicate HasAssigned(a: seq<Assigned>, id: nat)
  {
    exists i :: 0 <= i < |a| && a[i].id == id
  }

  /** A fresh tracker (detector.py:12-16). */
  function New(maxLost: int, iouThresh: real): (t: Tracker)
    ensures Valid(t) && t.tracks == [] && t.nextId == 0
    ensures t.maxLost == maxLost && t.iouThresh == iouThresh
  {
    Tracker(0, [], maxLost, iouThresh)
  }

  // ---------------------------------------------------------------------------
  // One row of the IoU matrix and its first-index argmax (numpy's argmax).
  // ---------------------------------------------------------------------------

  /** Row `i` of `iou_m` (detector.py:47-50): the overlap of one track box with
      every detection. */
  function Row(b: Box, dets: seq<Box>): (row: seq<real>)
    ensures |row| == |dets|
    ensures forall k :: 0 <= k < |row| ==> 0.0 <= row[k] <= 1.0
  {
    seq(|dets|, k requires 0 <= k < |dets| => Iou(b, dets[k]))
  }

  /** `j` is the first index at which the row peaks. */
  predicate IsFirstArgMax(row: seq<real>, j: nat)
  {
    && j < |row|
    && (forall k :: 0 <= k < |row| ==> row[k] <= row[j])
    && (forall k :: 0 <= k < j ==> row[k] < row[j])
  }

  function ArgMaxFrom(row: seq<real>, i: nat, best: nat): (r: nat)
    requires best < i <= |row|
    requires forall k :: 0 <= k < i ==> row[k] <= row[best]
    requires forall k :: 0 <= k < best ==> row[k] < row[best]
    ensures IsFirstArgMax(row, r)
    decreases |row| - i
  {
    if i == |row| then best
    else if row[i] > row[best] then ArgMaxFrom(row, i + 1, i)
    else ArgMaxFrom(row, i + 1, best)
  }

  /** `iou_m[i].argmax()` (detector.py:55): the first index of the maximum. */
  function FirstArgMax(row: seq<real>): (j: nat)
    requires |row| > 0
    ensures IsFirstArgMax(row, j)
  {
    ArgMaxFrom(row, 1, 0)
  }

  /** The first-index argmax is the only index with that property. */
  lemma FirstArgMaxUnique(row: seq<real>, j: nat)
    requires IsFirstArgMax(row, j)
    ensures j == FirstArgMax(row)
  {
  }

  /** Whether a row's track takes a detection, and which one
      (detector.py:55-56): the argmax, if it reaches the threshold. */
  function Choice(row: seq<real>, thresh: real): (c: Option<nat>)
    requires |row| > 0
    ensures c.Some? ==> IsFirstArgMax(row, c.value) && row[c.value] >= thresh
    ensures c.None? ==> forall k :: 0 <= k < |row| ==> row[k] < thresh
  {
    var j := FirstArgMax(row);
    if row[j] >= thresh then Some(j) else None
  }

  /** The choice of the track at table position `i`. */
  function ChoiceOf(t: Tracker, dets: seq<Box>, i: nat): (c: Option<nat>)
    requires |dets| > 0 && i < |t.tracks|
    ensures c.Some? ==> c.value < |dets|
  {
    Choice(Row(t.tracks[i].box, dets), t.iouThresh)
  }

  function Choices(t: Tracker, dets: seq<Box>): (ch: seq<Option<nat>>)
    requires |dets| > 0
  {
    seq(|t.tracks|, i requires 0 <= i < |t.tracks| => ChoiceOf(t, dets, i))
  }

  /** Detection `j` was taken by at least one existing track this frame. */
  predicate Taken(t: Tracker, dets: seq<Box>, j: nat)
    requires |dets| > 0
  {
    exists i :: 0 <= i < |t.tracks| && ChoiceOf(t, dets, i) == Some(j)
  }

  // ---------------------------------------------------------------------------
  // Detections left over after the greedy pass.
  // ---------------------------------------------------------------------------

  /** The set `matched_det` (detector.py:51, 61). */
  function Consumed(ch: seq<Option<nat>>): (r: set<nat>)
    ensures forall j :: j in r <==> Some(j) in ch
    ensures |r| <= |Somes(ch)|
  {
    if |ch| == 0 then {}
    else
      var rest := Consumed(ch[1..]);
      assert ch == [ch[0]] + ch[1..];
      if ch[0].Some? then {ch[0].value} + rest else rest
  }

  /** The indices below `n` outside `used`, ascending (detector.py:63-64). */
  function Unconsumed(n: nat, used: set<nat>): (r: seq<nat>)
    ensures forall x: nat :: x in r <==> x < n && x !in used
    ensures forall k, l :: 0 <= k < l < |r| ==> r[k] < r[l]
    ensures |r| <= n
  {
    if n == 0 then []
    else
      var prev := Unconsumed(n - 1, used);
      AllBelow(prev, n - 1);
      if n - 1 in used then prev else prev + [n - 1]
  }

  lemma AllBelow(s: seq<nat>, m: nat)
    requires forall x: nat :: x in s ==> x < m
    ensures forall k :: 0 <= k < |s| ==> s[k] < m
  {
    forall k | 0 <= k < |s|
      ensures s[k] < m
    {
      assert s[k] in s;
    }
  }

  function Below(used: set<nat>, n: nat): set<nat>
  {
    set x | x in used && x < n
  }

  lemma {:induction false} UnconsumedCount(n: nat, used: set<nat>)
    ensures |Unconsumed(n, used)| + |Below(used, n)| == n
  {
    if n > 0 {
      UnconsumedCount(n - 1, used);
      BelowStep(used, n);
    }
  }

  /** Raising the bound by one adds `n - 1` to the used indices below it
      exactly when it is used. */
  lemma BelowStep(used: set<nat>, n: nat)
    requires n > 0
    ensures n - 1 in used ==> |Below(used, n)| == |Below(used, n - 1)| + 1
    ensures n - 1 !in used ==> |Below(used, n)| == |Below(used, n - 1)|
  {
    var lower := Below(used, n - 1);
    assert n - 1 !in lower;
    if n - 1 in used {
      assert Below(used, n) == lower + {n - 1};
    } else {
      assert Below(used, n) == lower;
    }
  }

  // ---------------------------------------------------------------------------
  // The pieces of one update.
  // ---------------------------------------------------------------------------

  /** One frame of aging (detector.py:43-45, 70-72): `lost` grows by one and the
      track is dropped once it exceeds `maxLost`. */
  function Age(t: Track, maxLost: int): Option<Track>
  {
    var aged := t.(lost := t.lost + 1);
    if aged.lost > maxLost then None else Some(aged)
  }

  function AgeAll(ts: seq<Track>, maxLost: int): seq<Option<Track>>
  {
    seq(|ts|, i requires 0 <= i < |ts| => Age(ts[i], maxLost))
  }

  /** New tracks for `boxes`, numbered from `id` on, not yet aged. */
  function Spawn(boxes: seq<Box>, id: nat): seq<Track>
  {
    seq(|boxes|, k requires 0 <= k < |boxes| => Track(id + k, boxes[k], 0))
  }

  /** The mapping items for a run of tracks. */
  function AssignedOf(ts: seq<Track>): seq<Assigned>
  {
    seq(|ts|, k requires 0 <= k < |ts| => Assigned(ts[k].id, ts[k].box))
  }

  /** Per existing track: its table entry after this frame, if it survives. */
  function Revised(t: Tracker, dets: seq<Box>): seq<Option<Track>>
    requires |dets| > 0
  {
    seq(|t.tracks|, i requires 0 <= i < |t.tracks| =>
      match ChoiceOf(t, dets, i)
      case Some(j) => Some(Track(t.tracks[i].id, dets[j], 0))
      case None => Age(t.tracks[i], t.maxLost))
  }

  /** Per existing track: the mapping item it contributes, if it matched. */
  function Matched(t: Tracker, dets: seq<Box>): seq<Option<Assigned>>
    requires |dets| > 0
  {
    seq(|t.tracks|, i requires 0 <= i < |t.tracks| =>
      match ChoiceOf(t, dets, i)
      case Some(j) => Some(Assigned(t.tracks[i].id, dets[j]))
      case None => None)
  }

  /** The detection indices no track took, ascending. */
  function Fresh(t: Tracker, dets: seq<Box>): (spare: seq<nat>)
    requires |dets| > 0
    ensures forall k, l :: 0 <= k < l < |spare| ==> spare[k] < spare[l]
    ensures forall k :: 0 <= k < |spare| ==> spare[k] < |dets|
    ensures |spare| <= |dets|
  {
    var spare := Unconsumed(|dets|, Consumed(Choices(t, dets)));
    assert forall k :: 0 <= k < |spare| ==> spare[k] in spare;
    spare
  }

  /** The untaken detections are exactly the ones listed by `Fresh`. */
  lemma FreshUntaken(t: Tracker, dets: seq<Box>)
    requires |dets| > 0
    ensures forall j: nat :: j in Fresh(t, dets) <==> j < |dets| && !Taken(t, dets, j)
  {
    TakenIffChosen(t, dets);
  }

  lemma TakenIffChosen(t: Tracker, dets: seq<Box>)
    requires |dets| > 0
    ensures forall j: nat :: Taken(t, dets, j) <==> Some(j) in Choices(t, dets)
  {
    var ch := Choices(t, dets);
    forall j: nat
      ensures Taken(t, dets, j) <==> Some(j) in ch
    {
      if Some(j) in ch {
        var i :| 0 <= i < |ch| && ch[i] == Some(j);
        assert ChoiceOf(t, dets, i) == Some(j);
      }
      if Taken(t, dets, j) {
        var i :| 0 <= i < |t.tracks| && ChoiceOf(t, dets, i) == Some(j);
        assert ch[i] == Some(j);
      }
    }
  }

  /** The tracks spawned for the untaken detections, before aging. */
  function Born(t: Tracker, dets: seq<Box>): (born: seq<Track>)
    requires |dets| > 0
  {
    var spare := Fresh(t, dets);
    Spawn(seq(|spare|, k requires 0 <= k < |spare| => dets[spare[k]]), t.nextId)
  }

  /** `IOUTracker.update` (detector.py:30-73). */
  function Update(t: Tracker, dets: seq<Box>): (r: UpdateResult)
    ensures r.tracker.maxLost == t.maxLost && r.tracker.iouThresh == t.iouThresh
    ensures t.nextId <= r.tracker.nextId <= t.nextId + |dets|
  {
    if |t.tracks| == 0 then
      var born := Spawn(dets, t.nextId);
      UpdateResult(t.(nextId := t.nextId + |dets|, tracks := born), AssignedOf(born))
    else if |dets| == 0 then
      UpdateResult(t.(tracks := Somes(AgeAll(t.tracks, t.maxLost))), [])
    else
      var born := Born(t, dets);
      var kept := Somes(Revised(t, dets)) + Somes(AgeAll(born, t.maxLost));
      UpdateResult(Tracker(t.nextId + |born|, kept, t.maxLost, t.iouThresh),
                   Somes(Matched(t, dets)) + AssignedOf(born))
  }

  // ---------------------------------------------------------------------------
  // Where the entries of the new table and of the returned mapping come from.
  // ---------------------------------------------------------------------------

  /** On the general path a surviving track is either an existing track's
      revision or an aged newborn. */
  lemma KeptOrigin(t: Tracker, dets: seq<Box>, x: Track) returns (fromTable: bool, idx: nat)
    requires |t.tracks| > 0 && |dets| > 0
    requires x in Update(t, dets).tracker.tracks
    ensures fromTable ==> idx < |t.tracks| && Revised(t, dets)[idx] == Some(x) && x.id == t.tracks[idx].id
    ensures !fromTable ==> idx < |Born(t, dets)| && Age(Born(t, dets)[idx], t.maxLost) == Some(x)
                            && x.id == t.nextId + idx
  {
    var rev := Revised(t, dets);
    var aged := AgeAll(Born(t, dets), t.maxLost);
    if x in Somes(rev) {
      fromTable := true;
      idx := SomesOrigin(rev, x);
    } else {
      fromTable := false;
      idx := SomesOrigin(aged, x);
    }
  }

  /** On the general path a mapping item is either a matched existing track or
      a newborn. */
  lemma MappingOrigin(t: Tracker, dets: seq<Box>, a: Assigned) returns (fromTable: bool, idx: nat)
    requires |t.tracks| > 0 && |dets| > 0
    requires a in Update(t, dets).mapping
    ensures fromTable ==> idx < |t.tracks| && Matched(t, dets)[idx] == Some(a) && a.id == t.tracks[idx].id
    ensures !fromTable ==> idx < |Born(t, dets)| && a == Assigned(Born(t, dets)[idx].id, Born(t, dets)[idx].box)
                            && a.id == t.nextId + idx
  {
    var m := Matched(t, dets);
    var born := Born(t, dets);
    if a in Somes(m) {
      fromTable := true;
      idx := SomesOrigin(m, a);
    } else {
      fromTable := false;
      var k :| 0 <= k < |AssignedOf(born)| && AssignedOf(born)[k] == a;
      idx := k;
    }
  }

  // ---------------------------------------------------------------------------
  // The three paths of `update`.
  // ---------------------------------------------------------------------------

  /** With no tracks (detector.py:33-38) every detection becomes a track with
      `lost` 0, numbered in detection order from `nextId` on, and all of them
      are returned; with no detections either, nothing changes. */
  lemma UpdateEmptyTracker(t: Tracker, dets: seq<Box>)
    requires t.tracks == []
    ensures var r := Update(t, dets);
      && r.tracker.nextId == t.nextId + |dets|
      && |r.tracker.tracks| == |dets| && |r.mapping| == |dets|
      && (forall k :: 0 <= k < |dets| ==> r.tracker.tracks[k] == Track(t.nextId + k, dets[k], 0))
      && (forall k :: 0 <= k < |dets| ==> r.mapping[k] == Assigned(t.nextId + k, dets[k]))
      && (dets == [] ==> r.tracker == t && r.mapping == [])
  {
  }

  /** With tracks but no detections (detector.py:41-46) every track ages by
      one, exactly those past `maxLost` are dropped, the order and everything
      else is kept, and the returned mapping is empty. */
  lemma UpdateNoDetections(t: Tracker)
    requires |t.tracks| > 0
    ensures var r := Update(t, []);
      && r.mapping == []
      && r.tracker.nextId == t.nextId
      && |r.tracker.tracks| <= |t.tracks|
      && (forall x :: x in r.tracker.tracks <==>
            exists i :: 0 <= i < |t.tracks| && t.tracks[i].lost + 1 <= t.maxLost
                        && x == t.tracks[i].(lost := t.tracks[i].lost + 1))
      && (SortedIds(t.tracks) ==> SortedIds(r.tracker.tracks))
  {
    var r := Update(t, []);
    var aged := AgeAll(t.tracks, t.maxLost);
    assert r.tracker.tracks == Somes(aged);
    forall x
      ensures x in r.tracker.tracks <==>
              exists i :: 0 <= i < |t.tracks| && t.tracks[i].lost + 1 <= t.maxLost
                          && x == t.tracks[i].(lost := t.tracks[i].lost + 1)
    {
      SomesMember(aged, x);
      if exists i :: 0 <= i < |t.tracks| && t.tracks[i].lost + 1 <= t.maxLost
                     && x == t.tracks[i].(lost := t.tracks[i].lost + 1) {
        var i :| 0 <= i < |t.tracks| && t.tracks[i].lost + 1 <= t.maxLost
                 && x == t.tracks[i].(lost := t.tracks[i].lost + 1);
        assert aged[i] == Some(x);
      }
    }
    if SortedIds(t.tracks) {
      SomesSorted(aged, (x: Track) => x.id);
    }
  }

  /** A track whose best detection reaches the threshold takes that detection's
      box with `lost` 0 and is returned (detector.py:55-62). */
  lemma UpdateTrackMatched(t: Tracker, dets: seq<Box>, i: nat)
    requires |dets| > 0 && i < |t.tracks|
    ensures var tr := t.tracks[i];
            var r := Update(t, dets);
            var j := FirstArgMax(Row(tr.box, dets));
            Iou(tr.box, dets[j]) >= t.iouThresh ==>
              Assigned(tr.id, dets[j]) in r.mapping && Track(tr.id, dets[j], 0) in r.tracker.tracks
  {
    var tr := t.tracks[i];
    var j := FirstArgMax(Row(tr.box, dets));
    if Iou(tr.box, dets[j]) >= t.iouThresh {
      var rev := Revised(t, dets);
      var m := Matched(t, dets);
      assert ChoiceOf(t, dets, i) == Some(j);
      assert m[i] == Some(Assigned(tr.id, dets[j]));
      SomesMember(m, Assigned(tr.id, dets[j]));
      assert rev[i] == Some(Track(tr.id, dets[j], 0));
      SomesMember(rev, Track(tr.id, dets[j], 0));
    }
  }

  /** A track whose best detection falls short is not returned, and stays in
      the table, with `lost` one higher, exactly when that is within
      `maxLost` (detector.py:56, 68-72). */
  lemma UpdateTrackUnmatched(t: Tracker, dets: seq<Box>, i: nat)
    requires Valid(t) && |dets| > 0 && i < |t.tracks|
    ensures var tr := t.tracks[i];
            var r := Update(t, dets);
            var j := FirstArgMax(Row(tr.box, dets));
            Iou(tr.box, dets[j]) < t.iouThresh ==>
              && !HasAssigned(r.mapping, tr.id)
              && (Track(tr.id, tr.box, tr.lost + 1) in r.tracker.tracks <==> tr.lost + 1 <= t.maxLost)
  {
    var tr := t.tracks[i];
    var r := Update(t, dets);
    var j := FirstArgMax(Row(tr.box, dets));
    if Iou(tr.box, dets[j]) < t.iouThresh {
      var rev := Revised(t, dets);
      assert ChoiceOf(t, dets, i) == None;
      assert Matched(t, dets)[i] == None;
      if HasAssigned(r.mapping, tr.id) {
        var k :| 0 <= k < |r.mapping| && r.mapping[k].id == tr.id;
        var fromTable, idx := MappingOrigin(t, dets, r.mapping[k]);
      }
      assert rev[i] == Age(tr, t.maxLost);
      var x := Track(tr.id, tr.box, tr.lost + 1);
      if tr.lost + 1 <= t.maxLost {
        SomesMember(rev, x);
      }
      if x in r.tracker.tracks {
        var fromTable, idx := KeptOrigin(t, dets, x);
        if fromTable {
          assert idx == i;
        }
      }
    }
  }

  /** The only table entry that can carry an existing track's id after the
      update is that track's own revision: nothing else changes. */
  lemma UpdateTrackUnique(t: Tracker, dets: seq<Box>, i: nat)
    requires Valid(t) && |dets| > 0 && i < |t.tracks|
    ensures var tr := t.tracks[i];
            var r := Update(t, dets);
            var j := FirstArgMax(Row(tr.box, dets));
            var hit := Iou(tr.box, dets[j]) >= t.iouThresh;
            forall x :: x in r.tracker.tracks && x.id == tr.id ==>
              x == if hit then Track(tr.id, dets[j], 0) else Track(tr.id, tr.box, tr.lost + 1)
  {
    var tr := t.tracks[i];
    var r := Update(t, dets);
    var j := FirstArgMax(Row(tr.box, dets));
    var hit := Iou(tr.box, dets[j]) >= t.iouThresh;
    assert ChoiceOf(t, dets, i) == if hit then Some(j) else None;
    forall x | x in r.tracker.tracks && x.id == tr.id
      ensures x == if hit then Track(tr.id, dets[j], 0) else Track(tr.id, tr.box, tr.lost + 1)
    {
      var fromTable, idx := KeptOrigin(t, dets, x);
      if fromTable {
        assert idx == i;
      }
    }
  }

  /** The detections no track took (detector.py:63-64) are listed once each,
      in index order, and the counter moves past one id per listed detection. */
  lemma UpdateSpareDetections(t: Tracker, dets: seq<Box>)
    requires |t.tracks| > 0 && |dets| > 0
    ensures var r := Update(t, dets);
            var spare := Fresh(t, dets);
      && (forall j: nat :: j in spare <==> j < |dets| && !Taken(t, dets, j))
      && (forall k, l :: 0 <= k < l < |spare| ==> spare[k] < spare[l])
      && r.tracker.nextId == t.nextId + |spare|
  {
    FreshUntaken(t, dets);
  }

  /** Each untaken detection spawns one track, numbered on from `nextId`
      (detector.py:65-67), which is returned and is aged once, so it stays in
      the table with `lost` 1 exactly when `maxLost` allows it
      (detector.py:68-72). */
  lemma UpdateSpawned(t: Tracker, dets: seq<Box>)
    requires Valid(t) && |t.tracks| > 0 && |dets| > 0
    ensures var r := Update(t, dets);
            var spare := Fresh(t, dets);
      && (forall k :: 0 <= k < |spare| ==> Assigned(t.nextId + k, dets[spare[k]]) in r.mapping)
      && (forall k :: 0 <= k < |spare| ==>
            (Track(t.nextId + k, dets[spare[k]], 1) in r.tracker.tracks <==> 1 <= t.maxLost))
  {
    forall k | 0 <= k < |Fresh(t, dets)| {
      SpawnedEntry(t, dets, k);
    }
  }

  lemma SpawnedEntry(t: Tracker, dets: seq<Box>, k: nat)
    requires Valid(t) && |t.tracks| > 0 && |dets| > 0 && k < |Fresh(t, dets)|
    ensures var r := Update(t, dets);
            var spare := Fresh(t, dets);
      && Assigned(t.nextId + k, dets[spare[k]]) in r.mapping
      && (Track(t.nextId + k, dets[spare[k]], 1) in r.tracker.tracks <==> 1 <= t.maxLost)
  {
    var r := Update(t, dets);
    var spare := Fresh(t, dets);
    var born := Born(t, dets);
    var aged := AgeAll(born, t.maxLost);
    assert born[k] == Track(t.nextId + k, dets[spare[k]], 0);
    assert AssignedOf(born)[k] == Assigned(t.nextId + k, dets[spare[k]]);
    var x := Track(t.nextId + k, dets[spare[k]], 1);
    if 1 <= t.maxLost {
      assert aged[k] == Some(x);
      SomesMember(aged, x);
    }
    if x in r.tracker.tracks {
      var fromTable, idx := KeptOrigin(t, dets, x);
    }
  }

  /** Every returned id at or above the old counter belongs to a spawned track. */
  lemma UpdateNewIdsSpawned(t: Tracker, dets: seq<Box>)
    requires Valid(t) && |t.tracks| > 0 && |dets| > 0
    ensures var r := Update(t, dets);
            var spare := Fresh(t, dets);
            forall a :: a in r.mapping && a.id >= t.nextId ==>
              exists k :: 0 <= k < |spare| && a == Assigned(t.nextId + k, dets[spare[k]])
  {
    var r := Update(t, dets);
    var spare := Fresh(t, dets);
    var born := Born(t, dets);
    forall a | a in r.mapping && a.id >= t.nextId
      ensures exists k :: 0 <= k < |spare| && a == Assigned(t.nextId + k, dets[spare[k]])
    {
      var fromTable, idx := MappingOrigin(t, dets, a);
      assert !fromTable;
      assert born[idx] == Track(t.nextId + idx, dets[spare[idx]], 0);
    }
  }

  /** However the greedy pass goes, the mapping returned has between
      `|dets|` and `|tracks| + |dets|` items (each detection is either taken by
      a track or spawns one; each track takes at most one). */
  lemma UpdateSizeBounds(t: Tracker, dets: seq<Box>)
    ensures var r := Update(t, dets);
      |dets| <= |r.mapping| <= |t.tracks| + |dets|
  {
    if |t.tracks| > 0 && |dets| > 0 {
      var ch := Choices(t, dets);
      var used := Consumed(ch);
      SomesSameShape(Matched(t, dets), ch);
      UnconsumedCount(|dets|, used);
      forall x | x in used
        ensures x < |dets|
      {
        var i :| 0 <= i < |ch| && ch[i] == Some(x);
      }
      assert Below(used, |dets|) == used;
    }
  }

  // ---------------------------------------------------------------------------
  // Identity freshness and the table invariant.
  // ---------------------------------------------------------------------------

  lemma SortedIdsConcat(a: seq<Track>, b: seq<Track>)
    requires SortedIds(a) && SortedIds(b)
    requires forall i, j :: 0 <= i < |a| && 0 <= j < |b| ==> a[i].id < b[j].id
    ensures SortedIds(a + b)
  {
  }

  lemma SortedAssignedConcat(a: seq<Assigned>, b: seq<Assigned>)
    requires SortedAssigned(a) && SortedAssigned(b)
    requires forall i, j :: 0 <= i < |a| && 0 <= j < |b| ==> a[i].id < b[j].id
    ensures SortedAssigned(a + b)
  {
  }

  /** The surviving revisions of existing tracks: sorted, old ids only. */
  lemma RevisedPart(t: Tracker, dets: seq<Box>)
    requires Valid(t) && |dets| > 0
    ensures var part := Somes(Revised(t, dets));
      && SortedIds(part)
      && forall x :: x in part ==> HasTrack(t.tracks, x.id) && x.id < t.nextId
  {
    var rev := Revised(t, dets);
    assert forall i :: 0 <= i < |rev| && rev[i].Some? ==> rev[i].value.id == t.tracks[i].id;
    SomesSorted(rev, (x: Track) => x.id);
    forall x | x in Somes(rev)
      ensures HasTrack(t.tracks, x.id) && x.id < t.nextId
    {
      var i := SomesOrigin(rev, x);
    }
  }

  /** The matched items: sorted, old ids only. */
  lemma MatchedPart(t: Tracker, dets: seq<Box>)
    requires Valid(t) && |dets| > 0
    ensures var part := Somes(Matched(t, dets));
      && SortedAssigned(part)
      && forall a :: a in part ==> HasTrack(t.tracks, a.id) && a.id < t.nextId
  {
    var m := Matched(t, dets);
    assert forall i :: 0 <= i < |m| && m[i].Some? ==> m[i].value.id == t.tracks[i].id;
    SomesSorted(m, (a: Assigned) => a.id);
    forall a | a in Somes(m)
      ensures HasTrack(t.tracks, a.id) && a.id < t.nextId
    {
      var i := SomesOrigin(m, a);
    }
  }

  /** The surviving newborns: sorted, ids from the counter on. */
  lemma BornPart(t: Tracker, dets: seq<Box>)
    requires |dets| > 0
    ensures var born := Born(t, dets);
            var part := Somes(AgeAll(born, t.maxLost));
      && SortedIds(part)
      && SortedAssigned(AssignedOf(born))
      && (forall x :: x in part ==> t.nextId <= x.id < t.nextId + |born|)
      && (forall k :: 0 <= k < |born| ==> t.nextId <= AssignedOf(born)[k].id < t.nextId + |born|)
  {
    var born := Born(t, dets);
    var aged := AgeAll(born, t.maxLost);
    assert forall k :: 0 <= k < |aged| && aged[k].Some? ==> aged[k].value.id == t.nextId + k;
    SomesSorted(aged, (x: Track) => x.id);
    forall x | x in Somes(aged)
      ensures t.nextId <= x.id < t.nextId + |born|
    {
      var k := SomesOrigin(aged, x);
    }
  }

  /** The general path keeps the table sorted and under the counter. */
  lemma GeneralKeepsValid(t: Tracker, dets: seq<Box>)
    requires Valid(t) && |t.tracks| > 0 && |dets| > 0
    ensures var r := Update(t, dets);
      && Valid(r.tracker)
      && SortedAssigned(r.mapping)
      && (forall k :: 0 <= k < |r.mapping| ==> r.mapping[k].id < r.tracker.nextId)
      && (forall x :: x in r.tracker.tracks ==> HasTrack(t.tracks, x.id) || t.nextId <= x.id)
      && (forall a :: a in r.mapping ==> HasTrack(t.tracks, a.id) || t.nextId <= a.id)
  {
    GeneralTableValid(t, dets);
    GeneralMappingValid(t, dets);
  }

  /** The table half of `GeneralKeepsValid`. */
  lemma GeneralTableValid(t: Tracker, dets: seq<Box>)
    requires Valid(t) && |t.tracks| > 0 && |dets| > 0
    ensures var r := Update(t, dets);
      && Valid(r.tracker)
      && (forall x :: x in r.tracker.tracks ==> HasTrack(t.tracks, x.id) || t.nextId <= x.id)
  {
    var born := Born(t, dets);
    var oldPart, newPart := Somes(Revised(t, dets)), Somes(AgeAll(born, t.maxLost));
    RevisedPart(t, dets);
    BornPart(t, dets);
    assert forall i :: 0 <= i < |oldPart| ==> oldPart[i] in oldPart;
    assert forall i :: 0 <= i < |newPart| ==> newPart[i] in newPart;
    SortedIdsConcat(oldPart, newPart);
  }

  /** The mapping half of `GeneralKeepsValid`. */
  lemma GeneralMappingValid(t: Tracker, dets: seq<Box>)
    requires Valid(t) && |t.tracks| > 0 && |dets| > 0
    ensures var r := Update(t, dets);
      && SortedAssigned(r.mapping)
      && (forall k :: 0 <= k < |r.mapping| ==> r.mapping[k].id < r.tracker.nextId)
      && (forall a :: a in r.mapping ==> HasTrack(t.tracks, a.id) || t.nextId <= a.id)
  {
    var born := Born(t, dets);
    var matched := Somes(Matched(t, dets));
    MatchedPart(t, dets);
    BornPart(t, dets);
    assert forall i :: 0 <= i < |matched| ==> matched[i] in matched;
    SortedAssignedConcat(matched, AssignedOf(born));
  }

  /** `update` keeps the table sorted by id and under the counter, returns a
      mapping with distinct ascending ids below the counter, and never reuses
      an id: every id it leaves in the table or returns either was already in
      the table or is at least the old counter (detector.py:13, 35-37, 65-67). */
  lemma UpdateKeepsValid(t: Tracker, dets: seq<Box>)
    requires Valid(t)
    ensures var r := Update(t, dets);
      && Valid(r.tracker)
      && SortedAssigned(r.mapping)
      && (forall k :: 0 <= k < |r.mapping| ==> r.mapping[k].id < r.tracker.nextId)
      && (forall x :: x in r.tracker.tracks ==> HasTrack(t.tracks, x.id) || t.nextId <= x.id)
      && (forall a :: a in r.mapping ==> HasTrack(t.tracks, a.id) || t.nextId <= a.id)
  {
    var r := Update(t, dets);
    if |t.tracks| == 0 {
    } else if |dets| == 0 {
      var aged := AgeAll(t.tracks, t.maxLost);
      assert forall i :: 0 <= i < |aged| && aged[i].Some? ==> aged[i].value.id == t.tracks[i].id;
      SomesSorted(aged, (x: Track) => x.id);
      forall x | x in r.tracker.tracks
        ensures HasTrack(t.tracks, x.id)
      {
        var i := SomesOrigin(aged, x);
      }
      assert forall i :: 0 <= i < |r.tracker.tracks| ==> r.tracker.tracks[i] in r.tracker.tracks;
    } else {
      GeneralKeepsValid(t, dets);
    }
  }

  /** Aging (detector.py:43-45, 63-72): once `update` returns, every track in
      the table has `lost` within `maxLost`, whatever the table held before. */
  lemma UpdateAging(t: Tracker, dets: seq<Box>)
    requires t.maxLost >= 0
    ensures forall x :: x in Update(t, dets).tracker.tracks ==> x.lost <= t.maxLost
  {
    var r := Update(t, dets);
    if |t.tracks| == 0 {
    } else if |dets| == 0 {
      forall x | x in r.tracker.tracks
        ensures x.lost <= t.maxLost
      {
        var i := SomesOrigin(AgeAll(t.tracks, t.maxLost), x);
      }
    } else {
      forall x | x in r.tracker.tracks
        ensures x.lost <= t.maxLost
      {
        var fromTable, idx := KeptOrigin(t, dets, x);
      }
    }
  }

  /** With `maxLost` at least 1 nothing `update` returns has already been
      dropped: every returned item is a track of the new table, with the same
      box. (With `maxLost` 0 a spawned track is returned and dropped at once.) */
  lemma UpdateMappingInTable(t: Tracker, dets: seq<Box>)
    requires t.maxLost >= 1
    ensures var r := Update(t, dets);
            forall a :: a in r.mapping ==>
              exists x :: x in r.tracker.tracks && x.id == a.id && x.box == a.box
  {
    var r := Update(t, dets);
    if |t.tracks| == 0 {
      forall a | a in r.mapping
        ensures exists x :: x in r.tracker.tracks && x.id == a.id && x.box == a.box
      {
        var k :| 0 <= k < |r.mapping| && r.mapping[k] == a;
        assert r.tracker.tracks[k] in r.tracker.tracks;
      }
    } else if |dets| > 0 {
      var rev := Revised(t, dets);
      var born := Born(t, dets);
      var aged := AgeAll(born, t.maxLost);
      forall a | a in r.mapping
        ensures exists x :: x in r.tracker.tracks && x.id == a.id && x.box == a.box
      {
        var fromTable, idx := MappingOrigin(t, dets, a);
        if fromTable {
          var j := ChoiceOf(t, dets, idx).value;
          var x := Track(a.id, dets[j], 0);
          assert rev[idx] == Some(x);
          SomesMember(rev, x);
        } else {
          var x := born[idx].(lost := 1);
          assert aged[idx] == Some(x);
          SomesMember(aged, x);
        }
      }
    }
  }

  /** A track facing a detection identical to its own proper box is always
      matched (IoU 1 reaches any threshold up to 1), to a detection it
      overlaps completely. */
  lemma UpdateIdenticalMatch(t: Tracker, dets: seq<Box>, i: nat, k: nat)
    requires i < |t.tracks| && k < |dets|
    requires dets[k] == t.tracks[i].box && Proper(dets[k])
    requires t.iouThresh <= 1.0
    ensures var j := FirstArgMax(Row(t.tracks[i].box, dets));
            && Iou(t.tracks[i].box, dets[j]) == 1.0
            && Assigned(t.tracks[i].id, dets[j]) in Update(t, dets).mapping
  {
    var b := t.tracks[i].box;
    var row := Row(b, dets);
    var j := FirstArgMax(row);
    IouSelf(b);
    assert row[k] == 1.0;
    assert row[j] >= row[k];
    UpdateTrackMatched(t, dets, i);
  }

  // ---------------------------------------------------------------------------
  // Runs of frames.
  // ---------------------------------------------------------------------------

  /** The tracker after one `update` per frame, in order. */
  function Replay(t: Tracker, frames: seq<seq<Box>>): (r: Tracker)
    ensures r.maxLost == t.maxLost && r.iouThresh == t.iouThresh
    ensures r.nextId >= t.nextId
    decreases |frames|
  {
    if |frames| == 0 then t else Replay(Update(t, frames[0]).tracker, frames[1..])
  }

  /** An id that has left the table (or was never handed out to a track still
      present) never comes back: no later table holds it and the next update
      does not return it. */
  lemma {:induction false} IdsNeverReused(t: Tracker, frames: seq<seq<Box>>, next: seq<Box>, id: nat)
    requires Valid(t) && id < t.nextId && !HasTrack(t.tracks, id)
    ensures Valid(Replay(t, frames))
    ensures !HasTrack(Replay(t, frames).tracks, id)
    ensures !HasAssigned(Update(Replay(t, frames), next).mapping, id)
    decreases |frames|
  {
    if |frames| > 0 {
      var r := Update(t, frames[0]);
      UpdateKeepsValid(t, frames[0]);
      IdsNeverReused(r.tracker, frames[1..], next, id);
    } else {
      var r := Update(t, next);
      UpdateKeepsValid(t, next);
    }
  }

  lemma ElementOf<T>(s: seq<T>, i: nat)
    requires i < |s|
    ensures s[i] in s
  {
  }

  /** Frames with no detections only age the table: after `n` of them every
      remaining track has been missed at least `n` more times and the counter
      has not moved, so once that exceeds `maxLost` the table is empty. */
  lemma {:induction false} IdleFramesAge(t: Tracker, frames: seq<seq<Box>>, m: nat)
    requires forall k :: 0 <= k < |frames| ==> frames[k] == []
    requires forall x :: x in t.tracks ==> x.lost >= m
    ensures forall x :: x in Replay(t, frames).tracks ==> x.lost >= m + |frames|
    ensures Replay(t, frames).nextId == t.nextId
    ensures |frames| > 0 && m + |frames| > t.maxLost ==> Replay(t, frames).tracks == []
    decreases |frames|
  {
    if |frames| > 0 {
      var r := Update(t, []);
      assert frames[0] == [];
      if |t.tracks| > 0 {
        UpdateNoDetections(t);
        forall x | x in r.tracker.tracks
          ensures m + 1 <= x.lost <= t.maxLost
        {
          var i :| 0 <= i < |t.tracks| && t.tracks[i].lost + 1 <= t.maxLost
                   && x == t.tracks[i].(lost := t.tracks[i].lost + 1);
          assert t.tracks[i] in t.tracks;
        }
      }
      IdleFramesAge(r.tracker, frames[1..], m + 1);
      if |frames| == 1 && m + 1 > t.maxLost && |r.tracker.tracks| > 0 {
        ElementOf(r.tracker.tracks, 0);
      }
    }
  }

  /** One update in which no detection reaches the threshold against `box`:
      the entry carrying `id`, if it survives, still has that box, has been
      missed once more, and is within `maxLost` (detector.py:41-46, 68-72). */
  lemma UnmatchedStep(t: Tracker, dets: seq<Box>, id: nat, box: Box, m: nat)
    requires Valid(t) && id < t.nextId
    requires forall x :: x in t.tracks && x.id == id ==> x.box == box && x.lost >= m
    requires forall j :: 0 <= j < |dets| ==> Iou(box, dets[j]) < t.iouThresh
    ensures var r := Update(t, dets).tracker;
            && Valid(r) && id < r.nextId
            && forall x :: x in r.tracks && x.id == id ==> x.box == box && m + 1 <= x.lost <= t.maxLost
  {
    var r := Update(t, dets).tracker;
    UpdateKeepsValid(t, dets);
    forall x | x in r.tracks && x.id == id
      ensures x.box == box && m + 1 <= x.lost <= t.maxLost
    {
      var i :| 0 <= i < |t.tracks| && t.tracks[i].id == id;
      var tr := t.tracks[i];
      assert tr in t.tracks;
      if |dets| == 0 {
        UpdateNoDetections(t);
        var k :| 0 <= k < |t.tracks| && t.tracks[k].lost + 1 <= t.maxLost
                 && x == t.tracks[k].(lost := t.tracks[k].lost + 1);
        assert t.tracks[k] in t.tracks;
      } else {
        var j := FirstArgMax(Row(tr.box, dets));
        assert Iou(tr.box, dets[j]) < t.iouThresh;
        UpdateTrackUnique(t, dets, i);
        UpdateTrackUnmatched(t, dets, i);
      }
    }
  }

  /** Frames that never match `box` keep aging the entry carrying `id`:
      after them it still has that box and has been missed at least
      `|frames|` more times, within `maxLost`. */
  lemma {:induction false} UnmatchedFramesAge(t: Tracker, frames: seq<seq<Box>>, id: nat, box: Box, m: nat)
    requires Valid(t) && id < t.nextId
    requires forall x :: x in t.tracks && x.id == id ==> x.box == box && x.lost >= m
    requires forall k, j :: 0 <= k < |frames| && 0 <= j < |frames[k]| ==> Iou(box, frames[k][j]) < t.iouThresh
    ensures var r := Replay(t, frames);
            && Valid(r) && id < r.nextId
            && forall x :: x in r.tracks && x.id == id ==>
                 x.box == box && m + |frames| <= x.lost && (|frames| > 0 ==> x.lost <= t.maxLost)
    decreases |frames|
  {
    if |frames| > 0 {
      var next := Update(t, frames[0]).tracker;
      assert forall j :: 0 <= j < |frames[0]| ==> Iou(box, frames[0][j]) < t.iouThresh;
      UnmatchedStep(t, frames[0], id, box, m);
      assert forall k :: 0 <= k < |frames[1..]| ==> frames[1..][k] == frames[k + 1];
      UnmatchedFramesAge(next, frames[1..], id, box, m + 1);
    }
  }

  /** A track that no detection overlaps up to the threshold for more frames
      than its remaining allowance of misses has left the table, and its id
      never comes back. */
  lemma UnmatchedTrackExpires(t: Tracker, i: nat, frames: seq<seq<Box>>, later: seq<seq<Box>>)
    requires Valid(t) && i < |t.tracks|
    requires |frames| > 0 && t.tracks[i].lost + |frames| > t.maxLost
    requires forall k, j :: 0 <= k < |frames| && 0 <= j < |frames[k]| ==>
               Iou(t.tracks[i].box, frames[k][j]) < t.iouThresh
    ensures !HasTrack(Replay(t, frames).tracks, t.tracks[i].id)
    ensures !HasTrack(Replay(Replay(t, frames), later).tracks, t.tracks[i].id)
  {
    var tr := t.tracks[i];
    forall x | x in t.tracks && x.id == tr.id
      ensures x.box == tr.box && x.lost >= tr.lost
    {
      var k :| 0 <= k < |t.tracks| && t.tracks[k] == x;
      assert k == i;
    }
    UnmatchedFramesAge(t, frames, tr.id, tr.box, tr.lost);
    var r := Replay(t, frames);
    IdsNeverReused(r, later, [], tr.id);
  }

  // ---------------------------------------------------------------------------
  // Worked cases.
  // ---------------------------------------------------------------------------

  /** Line 56 does not check whether the detection was taken already: two
      tracks on the same box both take the one detection, both are returned
      with that box, and nothing is spawned. */
  lemma SharedDetectionExample()
    ensures var b := Box(0, 0, 10, 10);
            var t := Tracker(2, [Track(0, b, 0), Track(1, b, 3)], DefaultMaxLost, DefaultIouThresh);
            var r := Update(t, [b]);
            && r.mapping == [Assigned(0, b), Assigned(1, b)]
            && r.tracker.tracks == [Track(0, b, 0), Track(1, b, 0)]
            && r.tracker.nextId == 2
  {
    var b := Box(0, 0, 10, 10);
    var t := Tracker(2, [Track(0, b, 0), Track(1, b, 3)], DefaultMaxLost, DefaultIouThresh);
    SharedDetectionChoices(t, b);
    assert Born(t, [b]) == [];
    assert Somes(Matched(t, [b])) == [Assigned(0, b), Assigned(1, b)];
    assert Somes(Revised(t, [b])) == [Track(0, b, 0), Track(1, b, 0)];
    assert Somes(AgeAll([], DefaultMaxLost)) == [];
  }

  lemma SharedDetectionChoices(t: Tracker, b: Box)
    requires b == Box(0, 0, 10, 10)
    requires t == Tracker(2, [Track(0, b, 0), Track(1, b, 3)], DefaultMaxLost, DefaultIouThresh)
    ensures Fresh(t, [b]) == []
    ensures Matched(t, [b]) == [Some(Assigned(0, b)), Some(Assigned(1, b))]
    ensures Revised(t, [b]) == [Some(Track(0, b, 0)), Some(Track(1, b, 0))]
  {
    IouSelf(b);
    assert Row(b, [b]) == [1.0];
    assert FirstArgMax([1.0]) == 0;
    assert ChoiceOf(t, [b], 0) == Some(0);
    assert ChoiceOf(t, [b], 1) == Some(0);
    assert Choices(t, [b]) == [Some(0), Some(0)];
    assert Consumed([Some(0), Some(0)]) == {0};
    assert Unconsumed(1, {0}) == [];
  }

  /** A person seen in two consecutive frames, the boxes overlapping with IoU
      0.9, keeps one identity: the second update returns one item, id 0. */
  lemma OverlapKeepsIdentityExample()
    ensures var a, b := Box(0, 0, 10, 10), Box(0, 0, 10, 9);
            var first := Update(New(DefaultMaxLost, DefaultIouThresh), [a]);
            var second := Update(first.tracker, [b]);
            && Iou(a, b) == 0.9
            && second.mapping == [Assigned(0, b)]
  {
    var a, b := Box(0, 0, 10, 10), Box(0, 0, 10, 9);
    var t1 := Update(New(DefaultMaxLost, DefaultIouThresh), [a]).tracker;
    assert t1.tracks == [Track(0, a, 0)];
    assert Inter(a, b) == 90;
    assert Union(a, b) == 100;
    assert Iou(a, b) == 0.9;
    assert Row(a, [b]) == [0.9];
    assert FirstArgMax([0.9]) == 0;
    assert ChoiceOf(t1, [b], 0) == Some(0);
    assert Choices(t1, [b]) == [Some(0)];
    assert Consumed([Some(0)]) == {0};
    assert Unconsumed(1, {0}) == [];
    assert Born(t1, [b]) == [];
    assert Matched(t1, [b]) == [Some(Assigned(0, b))];
    assert Somes(Matched(t1, [b])) == [Assigned(0, b)];
  }
}
