/** What an extension of volumes does to a layout: which volumes grow, by what, and when it raises. */
module ExtensionOutcome {
  import opened Basics
  import opened VolumeExtension

  /* ---------- Rooms ---------- */

  /** Some run of free extents after one of the volume has a size. */
  predicate HasRoom(disks: seq<Disk>, volume: nat) {
    exists x :: 0 <= x < |disks| && DiskRoom(disks[x], volume)
  }

  predicate DiskRoom(d: Disk, volume: nat) {
    exists i :: 0 <= i < |d| && InRun(d, volume, i) && d[i].size > 0
  }

  /** The same when `open` tells that the extent before d is the volume's. */
  predicate RoomFrom(d: Disk, volume: nat, open: bool) {
    exists i :: 0 <= i < |d| && Taken(d, volume, open, i) && d[i].size > 0
  }

  lemma {:induction false} RoomRest(d: Disk, volume: nat, open: bool)
    requires d != []
    ensures
      var own, free := d[0].volume == volume, open && d[0].free;
      RoomFrom(d, volume, open) <==>
        (free && !own && d[0].size > 0) || RoomFrom(d[1..], volume, own || free)
  {
    var now := d[0].volume == volume || (open && d[0].free);
    var rest := d[1..];
    if i :| 0 <= i < |d| && Taken(d, volume, open, i) && d[i].size > 0 {
      if i > 0 {
        TakenRest(d, volume, open, i);
        assert rest[i - 1] == d[i];
      }
    }
    if i :| 0 <= i < |rest| && Taken(rest, volume, now, i) && rest[i].size > 0 {
      TakenRest(d, volume, open, i + 1);
      assert rest[i] == d[i + 1];
    }
    if open && d[0].free && d[0].volume != volume {
      assert Taken(d, volume, open, 0);
    }
  }

  lemma {:induction false} ClaimsOnDisk(d: Disk, volume: nat, open: bool)
    ensures RoomFrom(d, volume, open)
       <==> TotalClaimed(DiskClaims(d, volume)) + (if open then FreeRun(d, volume) else 0) > 0
  {
    if d != [] {
      RoomRest(d, volume, open);
      ClaimsOnDisk(d[1..], volume, d[0].volume == volume || (open && d[0].free));
    }
  }

  /** There is something to claim exactly where there is room. */
  lemma {:induction false} ClaimsIffRoom(disks: seq<Disk>, volume: nat)
    ensures Positive(Claims(disks, volume)) != [] <==> HasRoom(disks, volume)
  {
    PositiveTotal(Claims(disks, volume));
    PositiveIsEmpty(Claims(disks, volume));
    TotalIffRoom(disks, volume);
  }

  lemma {:induction false} PositiveIsEmpty(claims: seq<Claim>)
    ensures Positive(claims) == [] <==> TotalClaimed(claims) == 0
  {
    if claims != [] {
      PositiveIsEmpty(claims[1..]);
    }
  }

  lemma {:induction false} TotalIffRoom(disks: seq<Disk>, volume: nat)
    ensures TotalClaimed(Claims(disks, volume)) > 0 <==> HasRoom(disks, volume)
  {
    if disks != [] {
      ClaimsOnDisk(disks[0], volume, false);
      RoomIsRoom(disks[0], volume);
      TotalIffRoom(disks[1..], volume);
      TotalClaimedConcat(DiskClaims(disks[0], volume), Claims(disks[1..], volume));
      RoomOnRest(disks, volume);
    }
  }

  lemma {:induction false} RoomIsRoom(d: Disk, volume: nat)
    ensures RoomFrom(d, volume, false) <==> DiskRoom(d, volume)
  {
    assert forall i :: 0 <= i < |d| ==> (Taken(d, volume, false, i) <==> InRun(d, volume, i));
  }

  lemma {:induction false} RoomOnRest(disks: seq<Disk>, volume: nat)
    requires disks != []
    ensures HasRoom(disks, volume) <==> DiskRoom(disks[0], volume) || HasRoom(disks[1..], volume)
  {
    assert forall x :: 0 < x < |disks| ==> disks[x] == disks[1..][x - 1];
  }

  /* ---------- Layouts ---------- */

  /** After some volumes took their runs: the extents in them are those volumes', and no other
      extent changed. */
  ghost predicate TakenBy(before: Disk, after: Disk, ids: seq<nat>) {
    |after| == |before| && forall i :: 0 <= i < |before| ==> TakenAt(before, after, ids, i)
  }

  ghost predicate TakenAt(before: Disk, after: Disk, ids: seq<nat>, i: nat)
    requires i < |before| == |after|
  {
    && (forall k :: 0 <= k < |ids| && InRun(before, ids[k], i) ==>
          after[i] == before[i].(volume := ids[k], free := false))
    && ((forall k :: 0 <= k < |ids| ==> !InRun(before, ids[k], i)) ==> after[i] == before[i])
  }

  ghost predicate AllTakenBy(before: seq<Disk>, after: seq<Disk>, ids: seq<nat>) {
    |after| == |before| && forall x :: 0 <= x < |before| ==> TakenBy(before[x], after[x], ids)
  }

  /** What one volume takes is no part of the runs of another, nor does it lengthen them. */
  lemma {:induction false} RunFrame(d: Disk, taken: nat, volume: nat, i: nat)
    requires FreeIsUnowned(d) && taken != volume && taken != NO_VOLUME && volume != NO_VOLUME && i < |d|
    ensures |Absorb(d, taken, false)| == |d|
    ensures InRun(Absorb(d, taken, false), volume, i) <==> InRun(d, volume, i)
  {
    var e := Absorb(d, taken, false);
    AbsorbedExtents(d, taken);
    if j :| 0 <= j < i && InRunOf(d, volume, j, i) {
      forall k: nat | j < k <= i
        ensures e[k] == d[k]
      {
        assert InRunOf(d, volume, j, k);
        RunsAreDisjoint(d, k, volume, taken);
      }
      assert !d[j].free;
      assert InRunOf(e, volume, j, i);
    }
    if j :| 0 <= j < i && InRunOf(e, volume, j, i) {
      assert e[j] == d[j];
      forall k: nat | j < k <= i
        ensures e[k] == d[k]
      {
        assert e[k].free;
      }
      assert InRunOf(d, volume, j, i);
    }
  }

  lemma {:induction false} AbsorbedExtents(d: Disk, volume: nat)
    ensures |Absorb(d, volume, false)| == |d|
    ensures forall i :: 0 <= i < |d| ==>
      Absorb(d, volume, false)[i] == if InRun(d, volume, i) then d[i].(volume := volume, free := false) else d[i]
    ensures forall i :: 0 <= i < |d| && InRun(d, volume, i) ==> d[i].free
  {
    AbsorbLength(d, volume, false);
    forall i | 0 <= i < |d|
      ensures Absorb(d, volume, false)[i] == if InRun(d, volume, i) then d[i].(volume := volume, free := false) else d[i]
    {
      AbsorbTakesRuns(d, volume, false, i);
    }
  }

  lemma {:induction false} RoomFrame(d: Disk, taken: nat, volume: nat)
    requires FreeIsUnowned(d) && taken != volume && taken != NO_VOLUME && volume != NO_VOLUME
    ensures DiskRoom(Absorb(d, taken, false), volume) <==> DiskRoom(d, volume)
  {
    var e := Absorb(d, taken, false);
    AbsorbedExtents(d, taken);
    forall i | 0 <= i < |d|
      ensures InRun(e, volume, i) <==> InRun(d, volume, i)
    {
      RunFrame(d, taken, volume, i);
    }
  }

  lemma {:induction false} AbsorbedDisks(disks: seq<Disk>, volume: nat)
    ensures |AbsorbAll(disks, volume)| == |disks|
    ensures forall x :: 0 <= x < |disks| ==> AbsorbAll(disks, volume)[x] == Absorb(disks[x], volume, false)
  {
    if disks != [] {
      AbsorbedDisks(disks[1..], volume);
    }
  }

  lemma {:induction false} AllRoomFrame(disks: seq<Disk>, taken: nat, volume: nat)
    requires forall d :: d in disks ==> FreeIsUnowned(d)
    requires taken != volume && taken != NO_VOLUME && volume != NO_VOLUME
    ensures HasRoom(AbsorbAll(disks, taken), volume) <==> HasRoom(disks, volume)
  {
    AbsorbedDisks(disks, taken);
    forall x | 0 <= x < |disks|
      ensures DiskRoom(AbsorbAll(disks, taken)[x], volume) <==> DiskRoom(disks[x], volume)
    {
      RoomFrame(disks[x], taken, volume);
    }
  }

  /** First one volume, then others. */
  lemma {:induction false} TakenThen(d: Disk, first: nat, after: Disk, ids: seq<nat>)
    requires FreeIsUnowned(d) && first != NO_VOLUME && first !in ids && NO_VOLUME !in ids
    requires TakenBy(Absorb(d, first, false), after, ids)
    ensures TakenBy(d, after, [first] + ids)
  {
    AbsorbedExtents(d, first);
    forall i | 0 <= i < |d|
      ensures TakenAt(d, after, [first] + ids, i)
    {
      TakenThenAt(d, first, after, ids, i);
    }
  }

  lemma {:induction false} TakenThenAt(d: Disk, first: nat, after: Disk, ids: seq<nat>, i: nat)
    requires FreeIsUnowned(d) && first != NO_VOLUME && first !in ids && NO_VOLUME !in ids
    requires TakenBy(Absorb(d, first, false), after, ids) && |Absorb(d, first, false)| == |d| && i < |d|
    ensures TakenAt(d, after, [first] + ids, i)
  {
    var mid, all := Absorb(d, first, false), [first] + ids;
    AbsorbedExtents(d, first);
    assert TakenAt(mid, after, ids, i);
    forall k | 0 <= k < |ids|
      ensures InRun(mid, ids[k], i) <==> InRun(d, ids[k], i)
      ensures InRun(d, first, i) ==> !InRun(d, ids[k], i)
    {
      assert ids[k] in ids;
      RunFrame(d, first, ids[k], i);
      RunsAreDisjoint(d, i, first, ids[k]);
    }
    assert all[0] == first && forall k :: 0 <= k < |ids| ==> ids[k] == all[k + 1];
    if InRun(d, first, i) {
      assert after[i] == mid[i];
      assert forall k :: 0 < k < |all| ==> all[k] == ids[k - 1];
    } else {
      forall k | 0 <= k < |all| && InRun(d, all[k], i)
        ensures after[i] == d[i].(volume := all[k], free := false)
      {
        assert all[k] == ids[k - 1];
      }
      if forall k :: 0 <= k < |all| ==> !InRun(d, all[k], i) {
        assert forall k :: 0 <= k < |ids| ==> !InRun(mid, ids[k], i);
      }
    }
  }

  lemma {:induction false} NothingTaken(disks: seq<Disk>)
    ensures AllTakenBy(disks, disks, [])
  {
  }

  lemma {:induction false} AllTakenThen(disks: seq<Disk>, first: nat, after: seq<Disk>, ids: seq<nat>)
    requires (forall d :: d in disks ==> FreeIsUnowned(d)) && first != NO_VOLUME && first !in ids && NO_VOLUME !in ids
    requires AllTakenBy(AbsorbAll(disks, first), after, ids)
    ensures AllTakenBy(disks, after, [first] + ids)
  {
    AbsorbedDisks(disks, first);
    forall x | 0 <= x < |disks|
      ensures TakenBy(disks[x], after[x], [first] + ids)
    {
      assert TakenBy(AbsorbAll(disks, first)[x], after[x], ids);
      TakenThen(disks[x], first, after[x], ids);
    }
  }

  /* ---------- The outcome ---------- */

  /** Its index is asked for, and there is room after it. */
  predicate Concerned(disks: seq<Disk>, v: Volume, indexes: seq<nat>) {
    && (|indexes| == 0 || exists k :: 0 <= k < |indexes| && v.index == Some(indexes[k]))
    && HasRoom(disks, v.id)
  }

  /** The ids of the volumes that grow, in order, up to the first one whose job fails. */
  function Growing(disks: seq<Disk>, volumes: seq<Volume>, indexes: seq<nat>): seq<nat> {
    if volumes == [] || Breaks(disks, volumes[0], indexes) then []
    else if Grows(disks, volumes[0], indexes) then [volumes[0].id] + Growing(disks, volumes[1..], indexes)
    else Growing(disks, volumes[1..], indexes)
  }

  predicate Grows(disks: seq<Disk>, v: Volume, indexes: seq<nat>) {
    Concerned(disks, v, indexes) && v.job == Extends
  }

  predicate Breaks(disks: seq<Disk>, v: Volume, indexes: seq<nat>) {
    Concerned(disks, v, indexes) && v.job == Fails
  }

  predicate SomeBreaks(disks: seq<Disk>, volumes: seq<Volume>, indexes: seq<nat>) {
    exists k :: 0 <= k < |volumes| && Breaks(disks, volumes[k], indexes)
  }

  function Ids(granted: seq<Extension>): seq<nat> {
    seq(|granted|, i requires 0 <= i < |granted| => granted[i].volume)
  }

  lemma {:induction false} GrowingIds(disks: seq<Disk>, volumes: seq<Volume>, indexes: seq<nat>)
    ensures forall id :: id in Growing(disks, volumes, indexes) ==> exists v :: v in volumes && v.id == id
  {
    if volumes != [] {
      GrowingIds(disks, volumes[1..], indexes);
      assert volumes[0] in volumes;
    }
  }

  /** Volumes are independent: what one takes changes for no other whether it grows. */
  lemma {:induction false} GrowingFrame(
    disks: seq<Disk>, taken: nat, volumes: seq<Volume>, indexes: seq<nat>)
    requires (forall d :: d in disks ==> FreeIsUnowned(d)) && taken != NO_VOLUME
    requires forall v :: v in volumes ==> v.id != NO_VOLUME && v.id != taken
    ensures
      var after := AbsorbAll(disks, taken);
      && Growing(after, volumes, indexes) == Growing(disks, volumes, indexes)
      && (SomeBreaks(after, volumes, indexes) <==> SomeBreaks(disks, volumes, indexes))
  {
    var after := AbsorbAll(disks, taken);
    forall v | v in volumes
      ensures HasRoom(after, v.id) <==> HasRoom(disks, v.id)
    {
      AllRoomFrame(disks, taken, v.id);
    }
    assert forall k :: 0 <= k < |volumes| ==> volumes[k] in volumes;
    SameGrowing(disks, after, volumes, indexes);
  }

  lemma {:induction false} SameGrowing(
    disks: seq<Disk>, after: seq<Disk>, volumes: seq<Volume>, indexes: seq<nat>)
    requires forall v :: v in volumes ==> (HasRoom(after, v.id) <==> HasRoom(disks, v.id))
    ensures Growing(after, volumes, indexes) == Growing(disks, volumes, indexes)
  {
    if volumes != [] {
      assert volumes[0] in volumes;
      SameGrowing(disks, after, volumes[1..], indexes);
    }
  }

  /** One volume. */
  lemma {:induction false} OneVolume(p: Progress, v: Volume, indexes: seq<nat>) returns (r: Progress)
    requires !p.raised
    ensures r == if Selected(v, indexes) then ExtendVolume(p, v) else p
    ensures r.raised <==> Breaks(p.disks, v, indexes)
    ensures
      if Grows(p.disks, v, indexes) then GrantedTo(p, v, r) else r == p.(raised := r.raised)
  {
    ClaimsIffRoom(p.disks, v.id);
    r := if Selected(v, indexes) then ExtendVolume(p, v) else p;
    assert v.index.Some? && v.index.value in indexes ==>
      exists k :: 0 <= k < |indexes| && indexes[k] == v.index.value;
  }

  /** The volume took its runs, and was granted something after the others. */
  ghost predicate GrantedTo(p: Progress, v: Volume, r: Progress) {
    && r.disks == AbsorbAll(p.disks, v.id) && !r.raised
    && |r.granted| == |p.granted| + 1 && r.granted[..|p.granted|] == p.granted
    && r.granted[|p.granted|].volume == v.id
  }

  /** What an extension comes to. */
  ghost predicate ComesTo(p: Progress, r: Progress, ids: seq<nat>, raised: bool) {
    Ids(r.granted) == Ids(p.granted) + ids && AllTakenBy(p.disks, r.disks, ids) && r.raised == raised
  }

  lemma {:induction false} ComesToNothing(p: Progress, r: Progress)
    requires r == p.(raised := r.raised)
    ensures ComesTo(p, r, [], r.raised)
  {
    NothingTaken(p.disks);
    assert Ids(p.granted) + [] == Ids(p.granted);
  }

  /** On a layout whose free extents belong to no volume: the volumes granted something are exactly
      those whose index is asked for, that have room and whose job extends them, in order, up to the
      first one with room whose job fails; there is an error exactly when there is such a one; and
      the final layout is the first one with the runs of the granted volumes taken. */
  lemma {:induction false} Outcome(p: Progress, volumes: seq<Volume>, indexes: seq<nat>)
    requires Wellformed(p.disks, volumes) && !p.raised
    ensures ComesTo(p, ExtendVolumes(p, volumes, indexes),
                    Growing(p.disks, volumes, indexes), SomeBreaks(p.disks, volumes, indexes))
    decreases |volumes|, 0
  {
    if volumes == [] {
      ComesToNothing(p, p);
    } else {
      var p' := OneVolume(p, volumes[0], indexes);
      BreaksFirst(p.disks, volumes, indexes);
      if p'.raised {
        ComesToNothing(p, p');
      } else if Grows(p.disks, volumes[0], indexes) {
        OutcomeAfter(p, volumes[0], volumes[1..], indexes, p');
      } else {
        Outcome(p, volumes[1..], indexes);
      }
    }
  }

  lemma {:induction false} BreaksFirst(disks: seq<Disk>, volumes: seq<Volume>, indexes: seq<nat>)
    requires volumes != []
    ensures SomeBreaks(disks, volumes, indexes) <==>
      Breaks(disks, volumes[0], indexes) || SomeBreaks(disks, volumes[1..], indexes)
  {
    assert forall k :: 0 < k < |volumes| ==> volumes[k] == volumes[1..][k - 1];
  }

  /** The volumes after one that grew. */
  lemma {:induction false} OutcomeAfter(p: Progress, v: Volume, rest: seq<Volume>, indexes: seq<nat>, p': Progress)
    requires Wellformed(p.disks, rest) && v.id != NO_VOLUME && GrantedTo(p, v, p')
    requires forall w :: w in rest ==> w.id != v.id
    ensures ComesTo(p, ExtendVolumes(p', rest, indexes),
                    [v.id] + Growing(p.disks, rest, indexes), SomeBreaks(p.disks, rest, indexes))
    decreases |rest|, 1
  {
    AbsorbKeepsFree(p.disks, v.id);
    GrowingFrame(p.disks, v.id, rest, indexes);
    Outcome(p', rest, indexes);
    ComesToAfter(p, v, p', ExtendVolumes(p', rest, indexes), Growing(p.disks, rest, indexes), rest, indexes);
  }

  lemma {:induction false} ComesToAfter(
    p: Progress, v: Volume, p': Progress, r: Progress, ids: seq<nat>, rest: seq<Volume>, indexes: seq<nat>)
    requires Wellformed(p.disks, rest) && v.id != NO_VOLUME && GrantedTo(p, v, p')
    requires forall w :: w in rest ==> w.id != v.id
    requires ids == Growing(p.disks, rest, indexes) && ComesTo(p', r, ids, r.raised)
    ensures ComesTo(p, r, [v.id] + ids, r.raised)
  {
    GrowingIds(p.disks, rest, indexes);
    AllTakenThen(p.disks, v.id, r.disks, ids);
    assert Ids(p'.granted) == Ids(p.granted) + [v.id];
    Associates(Ids(p.granted), [v.id], ids);
  }
}
