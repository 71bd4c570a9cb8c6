/**
 Extension of volumes into the free space that follows their extents, as the VDS storage
 manager attributes it in one pass over every disk.
 */
module VolumeExtension {
  import opened Basics

  /** An extent of a disk; `place` stands for its disk, plex and member. */
  datatype Extent = Extent(volume: nat, free: bool, size: nat, place: nat)

  type Disk = seq<Extent>

  /** An extent of the volume and the free space right after it. */
  datatype Claim = Claim(extent: Extent, size: nat)

  /* ---------- The attribution, specified ---------- */

  /** The size of the longest run of free extents, none of the volume itself, at the start of d. */
  function FreeRun(d: Disk, volume: nat): nat {
    if d == [] || d[0].volume == volume || !d[0].free then 0
    else d[0].size + FreeRun(d[1..], volume)
  }

  function DiskClaims(d: Disk, volume: nat): seq<Claim> {
    if d == [] then []
    else if d[0].volume == volume then [Claim(d[0], FreeRun(d[1..], volume))] + DiskClaims(d[1..], volume)
    else DiskClaims(d[1..], volume)
  }

  function Claims(disks: seq<Disk>, volume: nat): seq<Claim> {
    if disks == [] then []
    else DiskClaims(disks[0], volume) + Claims(disks[1..], volume)
  }

  function Positive(claims: seq<Claim>): seq<Claim> {
    if claims == [] then []
    else if claims[0].size > 0 then [claims[0]] + Positive(claims[1..])
    else Positive(claims[1..])
  }

  /* ---------- The single pass ---------- */

  /** The list `[extent_copy, size]` of the source, shared between the result and the pass. */
  class Growth {
    const extent: Extent
    var size: nat

    constructor (extent: Extent)
      ensures this.extent == extent && size == 0
    {
      this.extent, size := extent, 0;
    }
  }

  function Values(list: seq<Growth>): seq<Claim>
    reads list
  {
    seq(|list|, i requires 0 <= i < |list| reads list => Claim(list[i].extent, list[i].size))
  }

  /** The last claim, larger by the given amount. */
  function Bump(claims: seq<Claim>, amount: nat): seq<Claim>
    requires claims != []
  {
    var last := claims[|claims| - 1];
    claims[..|claims| - 1] + [last.(size := last.size + amount)]
  }

  /** What the list comes to when the rest of a disk is still to be passed. */
  function Completed(claims: seq<Claim>, open: bool, rest: Disk, volume: nat): seq<Claim>
    requires open ==> claims != []
  {
    (if open then Bump(claims, FreeRun(rest, volume)) else claims) + DiskClaims(rest, volume)
  }

  lemma {:induction false} PassOwnExtent(claims: seq<Claim>, open: bool, d: Disk, volume: nat)
    requires d != [] && d[0].volume == volume && (open ==> claims != [])
    ensures Completed(claims + [Claim(d[0], 0)], true, d[1..], volume) == Completed(claims, open, d, volume)
  {
    var run := FreeRun(d[1..], volume);
    assert open ==> Bump(claims, 0) == claims;
    assert Bump(claims + [Claim(d[0], 0)], run) == claims + [Claim(d[0], run)];
    assert claims + ([Claim(d[0], run)] + DiskClaims(d[1..], volume))
        == claims + [Claim(d[0], run)] + DiskClaims(d[1..], volume);
  }

  lemma {:induction false} PassFreeExtent(claims: seq<Claim>, d: Disk, volume: nat)
    requires d != [] && d[0].volume != volume && d[0].free && claims != []
    ensures Completed(Bump(claims, d[0].size), true, d[1..], volume) == Completed(claims, true, d, volume)
  {
    assert Bump(Bump(claims, d[0].size), FreeRun(d[1..], volume)) == Bump(claims, FreeRun(d, volume));
  }

  lemma {:induction false} PassOtherExtent(claims: seq<Claim>, open: bool, d: Disk, volume: nat)
    requires d != [] && d[0].volume != volume && (open ==> claims != [] && !d[0].free)
    ensures Completed(claims, false, d[1..], volume) == Completed(claims, open, d, volume)
  {
    assert open ==> Bump(claims, 0) == claims;
  }

  /** `volume_extent_extend_size[1] += size`: the change shows in the list that shares the pair. */
  method Grow(open: Growth, size: nat, ghost list: seq<Growth>)
    requires list != [] && open == list[|list| - 1] && open !in list[..|list| - 1]
    modifies open
    ensures Values(list) == Bump(old(Values(list)), size)
  {
    open.size := open.size + size;
  }

  /** A new pair at the end of the list. */
  method Begin(e: Extent, list: seq<Growth>) returns (open: Growth, longer: seq<Growth>)
    ensures fresh(open) && longer == list + [open] && open !in list
    ensures Values(longer) == Values(list) + [Claim(e, 0)]
  {
    open := new Growth(e);
    longer := list + [open];
  }

  /** The open pair is the last one, and only that. */
  predicate OpenLast(list: seq<Growth>, open: Growth?) {
    open != null ==> list != [] && open == list[|list| - 1] && open !in list[..|list| - 1]
  }

  /** What one extent does to the claims, and to whether the last one is open. */
  function Passed(claims: seq<Claim>, open: bool, e: Extent, volume: nat): (seq<Claim>, bool)
    requires open ==> claims != []
  {
    if e.volume == volume then (claims + [Claim(e, 0)], true)
    else if open && e.free then (Bump(claims, e.size), true)
    else (claims, false)
  }

  /** The pass over the rest of a disk. */
  function Pass(claims: seq<Claim>, open: bool, d: Disk, i: nat, volume: nat): seq<Claim>
    requires i <= |d| && (open ==> claims != [])
    decreases |d| - i
  {
    if i == |d| then claims
    else
      var next := Passed(claims, open, d[i], volume);
      Pass(next.0, next.1, d, i + 1, volume)
  }

  /** It finds every extent of the volume with the run of free extents after it. */
  lemma {:induction false} PassComputes(claims: seq<Claim>, open: bool, d: Disk, i: nat, volume: nat)
    requires i <= |d| && (open ==> claims != [])
    ensures Pass(claims, open, d, i, volume) == Completed(claims, open, d[i..], volume)
    decreases |d| - i
  {
    if i == |d| {
      assert open ==> Bump(claims, 0) == claims;
    } else {
      var next := Passed(claims, open, d[i], volume);
      PassComputes(next.0, next.1, d, i + 1, volume);
      assert d[i..][0] == d[i] && d[i..][1..] == d[i + 1..];
      if d[i].volume == volume {
        PassOwnExtent(claims, open, d[i..], volume);
      } else if open && d[i].free {
        PassFreeExtent(claims, d[i..], volume);
      } else {
        PassOtherExtent(claims, open, d[i..], volume);
      }
    }
  }

  /** The loop body.  The open pair is reached through an alias of the last list element. */
  method PassExtent(e: Extent, volume: nat, list: seq<Growth>, open: Growth?)
    returns (longer: seq<Growth>, now: Growth?)
    requires OpenLast(list, open)
    modifies if open == null then {} else {open}
    ensures OpenLast(longer, now) && (now != null ==> longer != [])
    ensures now == null || now == open || fresh(now)
    ensures (Values(longer), now != null) == Passed(old(Values(list)), open != null, e, volume)
  {
    longer, now := list, null;
    if e.volume == volume {
      now, longer := Begin(e, list);
    } else if open != null && e.free {
      Grow(open, e.size, list);
      now := open;
    }
  }

  /** The pass over one disk. */
  method PassDisk(d: Disk, volume: nat) returns (list: seq<Growth>)
    ensures Values(list) == DiskClaims(d, volume)
  {
    list := [];
    var open: Growth? := null;
    ghost var goal := Pass([], false, d, 0, volume);
    var i := 0;
    while i < |d|
      invariant i <= |d| && OpenLast(list, open) && (open != null ==> list != [] && fresh(open))
      invariant Pass(Values(list), open != null, d, i, volume) == goal
    {
      list, open := PassExtent(d[i], volume, list, open);
      i := i + 1;
    }
    PassComputes([], false, d, 0, volume);
    assert d[0..] == d;
  }

  /** The passes over all disks. */
  method PassDisks(disks: seq<Disk>, volume: nat) returns (list: seq<Growth>)
    ensures Values(list) == Claims(disks, volume)
  {
    list := [];
    ghost var goal := Claims(disks, volume);
    var i := 0;
    assert disks[0..] == disks && [] + goal == goal;
    while i < |disks|
      invariant i <= |disks|
      invariant Values(list) + Claims(disks[i..], volume) == goal
    {
      ghost var before, rest := Values(list), Claims(disks[i + 1..], volume);
      var added := PassDisk(disks[i], volume);
      AppendedValues(list, added);
      assert disks[i..][1..] == disks[i + 1..];
      assert before + (Values(added) + rest) == (before + Values(added)) + rest;
      list := list + added;
      i := i + 1;
    }
    assert Values(list) + [] == Values(list);
  }

  lemma {:induction false} AppendedValues(a: seq<Growth>, b: seq<Growth>)
    ensures Values(a + b) == Values(a) + Values(b)
  {
  }

  /** `_get_volume_extents_to_resize`: only the extents with free space after them. */
  method GetVolumeExtentsToResize(disks: seq<Disk>, volume: nat) returns (claims: seq<Claim>)
    ensures claims == Positive(Claims(disks, volume))
  {
    var list := PassDisks(disks, volume);
    ghost var all := Values(list);
    claims := [];
    var i := 0;
    assert all[0..] == all;
    while i < |list|
      invariant i <= |list| && all == Values(list)
      invariant claims + Positive(all[i..]) == Positive(all)
    {
      assert all[i..][1..] == all[i + 1..];
      if list[i].size > 0 {
        claims := claims + [Claim(list[i].extent, list[i].size)];
      }
      i := i + 1;
    }
    assert claims + [] == claims;
  }

  /** The free space of a claim is the whole run: n free extents, and then the disk ends or an
      extent follows that is not free or is the volume's own. */
  lemma {:induction false} FreeRunIsMaximal(d: Disk, volume: nat) returns (n: nat)
    ensures n <= |d| && FreeRun(d, volume) == SumOfSizes(d[..n])
    ensures forall i :: 0 <= i < n ==> d[i].free && d[i].volume != volume
    ensures n == |d| || !d[n].free || d[n].volume == volume
  {
    if d == [] || d[0].volume == volume || !d[0].free {
      n := 0;
    } else {
      var m := FreeRunIsMaximal(d[1..], volume);
      n := m + 1;
      assert d[..n][1..] == d[1..][..m];
    }
  }

  function SumOfSizes(d: Disk): nat {
    if d == [] then 0 else d[0].size + SumOfSizes(d[1..])
  }

  /* ---------- Extending one volume after the other ---------- */

  /** No volume: the id that free extents carry. */
  const NO_VOLUME := 0

  ghost predicate FreeIsUnowned(d: Disk) {
    forall i :: 0 <= i < |d| && d[i].free ==> d[i].volume == NO_VOLUME
  }

  function FreeSpace(d: Disk): nat {
    if d == [] then 0 else (if d[0].free then d[0].size else 0) + FreeSpace(d[1..])
  }

  function TotalFree(disks: seq<Disk>): nat {
    if disks == [] then 0 else FreeSpace(disks[0]) + TotalFree(disks[1..])
  }

  function TotalClaimed(claims: seq<Claim>): nat {
    if claims == [] then 0 else claims[0].size + TotalClaimed(claims[1..])
  }

  /** A disk once a volume took the free extents that follow its own; `open` tells whether the
      extent before d is the volume's. */
  function Absorb(d: Disk, volume: nat, open: bool): Disk {
    if d == [] then []
    else if d[0].volume == volume then [d[0]] + Absorb(d[1..], volume, true)
    else if open && d[0].free then [d[0].(volume := volume, free := false)] + Absorb(d[1..], volume, true)
    else [d[0]] + Absorb(d[1..], volume, false)
  }

  function AbsorbAll(disks: seq<Disk>, volume: nat): seq<Disk> {
    if disks == [] then [] else [Absorb(disks[0], volume, false)] + AbsorbAll(disks[1..], volume)
  }

  lemma {:induction false} FreeRunFrame(d: Disk, taken: nat, volume: nat)
    requires FreeIsUnowned(d) && taken != volume && taken != NO_VOLUME && volume != NO_VOLUME
    ensures FreeRun(Absorb(d, taken, false), volume) == FreeRun(d, volume)
  {
    if d != [] && d[0].free {
      FreeRunFrame(d[1..], taken, volume);
    }
  }

  /** What one volume takes is not what another claims. */
  lemma {:induction false} DiskClaimsFrame(d: Disk, taken: nat, open: bool, volume: nat)
    requires FreeIsUnowned(d) && taken != volume && taken != NO_VOLUME && volume != NO_VOLUME
    ensures DiskClaims(Absorb(d, taken, open), volume) == DiskClaims(d, volume)
    ensures FreeIsUnowned(Absorb(d, taken, open))
  {
    if d != [] {
      var nowOpen := d[0].volume == taken || (open && d[0].free);
      DiskClaimsFrame(d[1..], taken, nowOpen, volume);
      var rest := Absorb(d[1..], taken, nowOpen);
      assert Absorb(d, taken, open)[1..] == rest;
      if d[0].volume == volume {
        FreeRunFrame(d[1..], taken, volume);
      }
    }
  }

  lemma {:induction false} ClaimsFrame(disks: seq<Disk>, taken: nat, volume: nat)
    requires forall d :: d in disks ==> FreeIsUnowned(d)
    requires taken != volume && taken != NO_VOLUME && volume != NO_VOLUME
    ensures Claims(AbsorbAll(disks, taken), volume) == Claims(disks, volume)
    ensures forall d :: d in AbsorbAll(disks, taken) ==> FreeIsUnowned(d)
  {
    if disks != [] {
      DiskClaimsFrame(disks[0], taken, false, volume);
      ClaimsFrame(disks[1..], taken, volume);
    }
  }

  /** The free space a disk loses is what the volume claimed on it. */
  lemma {:induction false} AbsorbConserves(d: Disk, volume: nat, open: bool)
    ensures FreeSpace(d) == FreeSpace(Absorb(d, volume, open)) + TotalClaimed(DiskClaims(d, volume))
                            + if open then FreeRun(d, volume) else 0
  {
    if d != [] {
      AbsorbConserves(d[1..], volume, d[0].volume == volume || (open && d[0].free));
    }
  }

  lemma {:induction false} TotalClaimedConcat(a: seq<Claim>, b: seq<Claim>)
    ensures TotalClaimed(a + b) == TotalClaimed(a) + TotalClaimed(b)
  {
    if a == [] {
      assert a + b == b;
    } else {
      TotalClaimedConcat(a[1..], b);
      assert (a + b)[1..] == a[1..] + b;
    }
  }

  lemma {:induction false} AbsorbAllConserves(disks: seq<Disk>, volume: nat)
    ensures TotalFree(disks) == TotalFree(AbsorbAll(disks, volume)) + TotalClaimed(Claims(disks, volume))
  {
    if disks != [] {
      AbsorbConserves(disks[0], volume, false);
      AbsorbAllConserves(disks[1..], volume);
      TotalClaimedConcat(DiskClaims(disks[0], volume), Claims(disks[1..], volume));
    }
  }

  lemma {:induction false} PositiveTotal(claims: seq<Claim>)
    ensures TotalClaimed(Positive(claims)) == TotalClaimed(claims)
  {
    if claims != [] {
      PositiveTotal(claims[1..]);
    }
  }

  /** How the extension job of a volume ends. */
  datatype Job = Extends | BelowMinimum | Fails

  /** A volume of the pack; `index` is the number at the end of its name, if there is one. */
  datatype Volume = Volume(id: nat, index: Option<nat>, job: Job)

  datatype Extension = Extension(volume: nat, claims: seq<Claim>)

  datatype Progress = Progress(disks: seq<Disk>, granted: seq<Extension>, raised: bool)

  predicate Selected(v: Volume, indexes: seq<nat>) {
    indexes == [] || (v.index.Some? && v.index.value in indexes)
  }

  /** `_extend_volume` on the layout left by the volumes before it. */
  function ExtendVolume(p: Progress, v: Volume): Progress {
    var claims := Positive(Claims(p.disks, v.id));
    if claims == [] || v.job.BelowMinimum? then p
    else if v.job.Fails? then p.(raised := true)
    else Progress(AbsorbAll(p.disks, v.id), p.granted + [Extension(v.id, claims)], false)
  }

  /** `_extend_volumes`. */
  function ExtendVolumes(p: Progress, volumes: seq<Volume>, indexes: seq<nat>): Progress
    decreases |volumes|
  {
    if volumes == [] || p.raised then p
    else ExtendVolumes(if Selected(volumes[0], indexes) then ExtendVolume(p, volumes[0]) else p, volumes[1..], indexes)
  }

  class StorageManager {
    var disks: seq<Disk>
    var granted: seq<Extension>

    constructor (disks: seq<Disk>)
      ensures this.disks == disks && granted == []
    {
      this.disks, granted := disks, [];
    }

    function Now(raised: bool): Progress
      reads this
    {
      Progress(disks, granted, raised)
    }

    method Extend(v: Volume) returns (raised: bool)
      modifies this
      ensures Now(raised) == ExtendVolume(old(Now(false)), v)
    {
      raised := false;
      var inputDisks := GetVolumeExtentsToResize(disks, v.id);
      if inputDisks != [] {
        match v.job {
          case BelowMinimum =>
          case Fails => raised := true;
          case Extends =>
            disks, granted := AbsorbAll(disks, v.id), granted + [Extension(v.id, inputDisks)];
        }
      }
    }

    method ExtendAll(volumes: seq<Volume>, indexes: seq<nat>) returns (raised: bool)
      modifies this
      ensures Now(raised) == ExtendVolumes(old(Now(false)), volumes, indexes)
    {
      raised := false;
      var i := 0;
      assert volumes[0..] == volumes;
      while i < |volumes| && !raised
        invariant i <= |volumes|
        invariant ExtendVolumes(Now(raised), volumes[i..], indexes) == ExtendVolumes(old(Now(false)), volumes, indexes)
      {
        assert volumes[i..][1..] == volumes[i + 1..];
        if Selected(volumes[i], indexes) {
          raised := Extend(volumes[i]);
        }
        i := i + 1;
      }
    }
  }

  function Granted(granted: seq<Extension>): nat {
    if granted == [] then 0
    else Granted(granted[..|granted| - 1]) + TotalClaimed(granted[|granted| - 1].claims)
  }

  ghost predicate Wellformed(disks: seq<Disk>, volumes: seq<Volume>) {
    && (forall d :: d in disks ==> FreeIsUnowned(d))
    && (forall v :: v in volumes ==> v.id != NO_VOLUME)
    && (forall i, j :: 0 <= i < j < |volumes| ==> volumes[i].id != volumes[j].id)
  }

  /** Whatever jobs fail, no free byte is granted twice or lost: the free space of the layout is
      what is left plus what was granted. */
  lemma {:induction false} ExtensionConserves(p: Progress, volumes: seq<Volume>, indexes: seq<nat>)
    ensures
      var r := ExtendVolumes(p, volumes, indexes);
      TotalFree(r.disks) + Granted(r.granted) == TotalFree(p.disks) + Granted(p.granted)
    decreases |volumes|
  {
    if volumes != [] && !p.raised {
      var v := volumes[0];
      var p' := if Selected(v, indexes) then ExtendVolume(p, v) else p;
      AbsorbAllConserves(p.disks, v.id);
      PositiveTotal(Claims(p.disks, v.id));
      var x := Extension(v.id, Positive(Claims(p.disks, v.id)));
      assert (p.granted + [x])[..|p.granted|] == p.granted;
      ExtensionConserves(p', volumes[1..], indexes);
    }
  }

  /** Every volume is granted what it claims on the layout before any was extended. */
  lemma {:induction false} GrantsAsOnSnapshot(
    p: Progress, volumes: seq<Volume>, indexes: seq<nat>, snapshot: seq<Disk>)
    requires Wellformed(p.disks, volumes)
    requires forall v :: v in volumes ==> Claims(p.disks, v.id) == Claims(snapshot, v.id)
    requires forall x :: x in p.granted ==> x.claims == Positive(Claims(snapshot, x.volume))
    ensures forall x :: x in ExtendVolumes(p, volumes, indexes).granted ==>
      x.claims == Positive(Claims(snapshot, x.volume))
    decreases |volumes|
  {
    if volumes != [] && !p.raised {
      var v := volumes[0];
      var p' := if Selected(v, indexes) then ExtendVolume(p, v) else p;
      if p'.disks != p.disks {
        forall w | w in volumes[1..]
          ensures Claims(p'.disks, w.id) == Claims(p.disks, w.id)
        {
          ClaimsFrame(p.disks, v.id, w.id);
        }
        AbsorbKeepsFree(p.disks, v.id);
      }
      GrantsAsOnSnapshot(p', volumes[1..], indexes, snapshot);
    }
  }

  lemma {:induction false} AbsorbKeepsFree(disks: seq<Disk>, taken: nat)
    requires (forall d :: d in disks ==> FreeIsUnowned(d)) && taken != NO_VOLUME
    ensures forall d :: d in AbsorbAll(disks, taken) ==> FreeIsUnowned(d)
  {
    ClaimsFrame(disks, taken, taken + 1);
  }

  /** So the claims of different volumes on one layout do not overlap: together they never exceed
      its free space. */
  lemma {:induction false} SnapshotClaimsFit(disks: seq<Disk>, volumes: seq<Volume>)
    requires Wellformed(disks, volumes)
    ensures TotalOf(disks, volumes) <= TotalFree(disks)
    decreases |volumes|
  {
    if volumes != [] {
      var v := volumes[0];
      var left := AbsorbAll(disks, v.id);
      AbsorbKeepsFree(disks, v.id);
      AbsorbAllConserves(disks, v.id);
      PositiveTotal(Claims(disks, v.id));
      SnapshotClaimsFit(left, volumes[1..]);
      SameTotals(disks, v.id, volumes[1..]);
    }
  }

  function TotalOf(disks: seq<Disk>, volumes: seq<Volume>): nat {
    if volumes == [] then 0
    else TotalClaimed(Positive(Claims(disks, volumes[0].id))) + TotalOf(disks, volumes[1..])
  }

  lemma {:induction false} SameTotals(disks: seq<Disk>, taken: nat, volumes: seq<Volume>)
    requires forall d :: d in disks ==> FreeIsUnowned(d)
    requires taken != NO_VOLUME && forall v :: v in volumes ==> v.id != NO_VOLUME && v.id != taken
    ensures TotalOf(AbsorbAll(disks, taken), volumes) == TotalOf(disks, volumes)
  {
    if volumes != [] {
      ClaimsFrame(disks, taken, volumes[0].id);
      SameTotals(disks, taken, volumes[1..]);
    }
  }

  /* ---------- The claims, extent by extent ---------- */

  /** How many of the first j extents are the volume's. */
  function OwnBefore(d: Disk, volume: nat, j: nat): nat
    requires j <= |d|
  {
    if j == 0 then 0 else OwnBefore(d, volume, j - 1) + if d[j - 1].volume == volume then 1 else 0
  }

  lemma {:induction false} OwnBeforeRest(d: Disk, volume: nat, j: nat)
    requires 0 < j <= |d|
    ensures OwnBefore(d, volume, j) == (if d[0].volume == volume then 1 else 0) + OwnBefore(d[1..], volume, j - 1)
  {
    if j > 1 {
      OwnBeforeRest(d, volume, j - 1);
    }
  }

  /** Every extent of the volume has its claim, in order: the run of free extents right after it. */
  lemma {:induction false} ClaimOf(d: Disk, volume: nat, j: nat) returns (n: nat)
    requires j < |d| && d[j].volume == volume
    ensures |DiskClaims(d, volume)| == OwnBefore(d, volume, |d|) > OwnBefore(d, volume, j)
    ensures j + n < |d| && forall i :: j < i < |d| ==> (InRunOf(d, volume, j, i) <==> i <= j + n)
    ensures DiskClaims(d, volume)[OwnBefore(d, volume, j)] == Claim(d[j], SumOfSizes(d[j + 1..j + 1 + n]))
  {
    n := FreeRunIsRun(d, volume, j);
    ClaimIndex(d, volume, j);
  }

  lemma {:induction false} ClaimIndex(d: Disk, volume: nat, j: nat)
    requires j < |d| && d[j].volume == volume
    ensures |DiskClaims(d, volume)| == OwnBefore(d, volume, |d|) > OwnBefore(d, volume, j)
    ensures DiskClaims(d, volume)[OwnBefore(d, volume, j)] == Claim(d[j], FreeRun(d[j + 1..], volume))
  {
    ClaimCount(d, volume);
    OwnBeforeRest(d, volume, |d|);
    if j > 0 {
      OwnBeforeRest(d, volume, j);
      ClaimIndex(d[1..], volume, j - 1);
      assert d[1..][j - 1 + 1..] == d[j + 1..];
    }
  }

  lemma {:induction false} ClaimCount(d: Disk, volume: nat)
    ensures |DiskClaims(d, volume)| == OwnBefore(d, volume, |d|)
  {
    if d != [] {
      ClaimCount(d[1..], volume);
      OwnBeforeRest(d, volume, |d|);
    }
  }

  /* ---------- The runs themselves ---------- */

  /** The extents after the j-th, up to the i-th, are free and not the volume's. */
  predicate FreeBetween(d: Disk, volume: nat, j: int, i: nat)
    requires -1 <= j && i < |d|
  {
    forall k: nat :: j < k <= i ==> d[k].free && d[k].volume != volume
  }

  /** The i-th extent is in the run of free extents after the j-th, which is the volume's. */
  predicate InRunOf(d: Disk, volume: nat, j: nat, i: nat)
    requires i < |d|
  {
    j < i && d[j].volume == volume && FreeBetween(d, volume, j, i)
  }

  predicate InRun(d: Disk, volume: nat, i: nat)
    requires i < |d|
  {
    exists j :: 0 <= j < i && InRunOf(d, volume, j, i)
  }

  /** No extent is in the runs of two volumes, and only free extents are in one. */
  lemma {:induction false} RunsAreDisjoint(d: Disk, i: nat, v: nat, w: nat)
    requires FreeIsUnowned(d) && i < |d| && v != w && v != NO_VOLUME && w != NO_VOLUME
    ensures !(InRun(d, v, i) && InRun(d, w, i))
    ensures InRun(d, v, i) ==> d[i].free
  {
    forall j, k | 0 <= j < i && 0 <= k < i && InRunOf(d, v, j, i)
      ensures !InRunOf(d, w, k, i)
    {
      OneRun(d, i, v, j, w, k);
    }
  }

  lemma {:induction false} OneRun(d: Disk, i: nat, v: nat, j: nat, w: nat, k: nat)
    requires FreeIsUnowned(d) && i < |d| && v != w && v != NO_VOLUME && w != NO_VOLUME
    requires InRunOf(d, v, j, i) && k < i
    ensures !InRunOf(d, w, k, i)
  {
    if j < k {
      assert d[k].free;
    } else {
      assert d[j].volume == v && !d[j].free;
    }
  }

  /** The claim of the extent before d is the run after it. */
  lemma {:induction false} FreeRunIsRun(d: Disk, volume: nat, j: nat) returns (n: nat)
    requires j < |d| && d[j].volume == volume
    ensures j + n < |d| && FreeRun(d[j + 1..], volume) == SumOfSizes(d[j + 1..j + 1 + n])
    ensures forall i :: j < i < |d| ==> (InRunOf(d, volume, j, i) <==> i <= j + n)
  {
    var rest := d[j + 1..];
    n := FreeRunIsMaximal(rest, volume);
    assert rest[..n] == d[j + 1..j + 1 + n];
    forall i | j < i < |d|
      ensures InRunOf(d, volume, j, i) <==> i <= j + n
    {
      if i <= j + n {
        assert forall k :: j < k <= i ==> d[k] == rest[k - j - 1];
      } else {
        assert d[j + 1 + n] == rest[n];
      }
    }
  }

  /** Whether the volume takes the i-th extent when `open` tells that the extent before d is its own. */
  predicate Taken(d: Disk, volume: nat, open: bool, i: nat)
    requires i < |d|
  {
    InRun(d, volume, i) || (open && FreeBetween(d, volume, -1, i))
  }

  lemma {:induction false} FreeBetweenRest(d: Disk, volume: nat, j: nat, i: nat)
    requires 0 < i < |d|
    ensures FreeBetween(d[1..], volume, j - 1, i - 1) <==> FreeBetween(d, volume, j, i)
  {
    if FreeBetween(d[1..], volume, j - 1, i - 1) {
      assert forall k :: j < k <= i ==> d[k] == d[1..][k - 1];
    }
    if FreeBetween(d, volume, j, i) {
      assert forall k :: j < k <= i ==> d[k] == d[1..][k - 1];
    }
  }

  lemma {:induction false} TakenRest(d: Disk, volume: nat, open: bool, i: nat)
    requires 0 < i < |d|
    ensures
      var now := d[0].volume == volume || (open && d[0].free);
      Taken(d, volume, open, i) <==> Taken(d[1..], volume, now, i - 1)
  {
    FreeBetweenRest(d, volume, 0, i);
    assert FreeBetween(d, volume, -1, i) <==> d[0].free && d[0].volume != volume && FreeBetween(d, volume, 0, i);
    if j :| 0 <= j < i && InRunOf(d, volume, j, i) {
      FreeBetweenRest(d, volume, j, i);
      assert j > 0 ==> InRunOf(d[1..], volume, j - 1, i - 1);
    }
    var rest, last := d[1..], i - 1;
    if j :| 0 <= j < last && InRunOf(rest, volume, j, last) {
      FreeBetweenRest(d, volume, j + 1, i);
      assert InRunOf(d, volume, j + 1, i);
    }
    if d[0].volume == volume && FreeBetween(d, volume, 0, i) {
      assert InRunOf(d, volume, 0, i);
    }
  }

  /** Extending a volume takes exactly the extents in its runs. */
  lemma {:induction false} AbsorbTakesRuns(d: Disk, volume: nat, open: bool, i: nat)
    requires i < |d|
    ensures |Absorb(d, volume, open)| == |d|
    ensures Absorb(d, volume, open)[i] ==
      if Taken(d, volume, open, i) then d[i].(volume := volume, free := false) else d[i]
  {
    if i == 0 {
      AbsorbLength(d, volume, open);
    } else {
      var now := d[0].volume == volume || (open && d[0].free);
      AbsorbTakesRuns(d[1..], volume, now, i - 1);
      TakenRest(d, volume, open, i);
      assert Absorb(d, volume, open)[i] == Absorb(d[1..], volume, now)[i - 1];
    }
  }

  lemma {:induction false} AbsorbLength(d: Disk, volume: nat, open: bool)
    ensures |Absorb(d, volume, open)| == |d|
  {
    if d != [] {
      AbsorbLength(d[1..], volume, d[0].volume == volume || (open && d[0].free));
    }
  }
}
