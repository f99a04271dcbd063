/**
  The inactivity sweep racing heartbeats.

  The daily sweep works from a snapshot of the active peers.  For each entry it
  may send a warning, write the warning stage and delete the row if the stage is
  still final; these are separate statements, and heartbeats that reset the stage
  may land before any of them.  `Gaps` says which peers a heartbeat marks in each
  of these places, and whether the two writes succeed, so one value of it is one
  interleaving.
 */
module Inactivity {
  type PeerId = string
  type Time = int   // seconds

  /** Warning stages: 1 after the first warning, 2 after the second, 3 final. */
  datatype Peer = Peer(stage: nat, lastActive: Time)

  datatype Event =
    | Heard(ids: set<PeerId>)            // heartbeats with a recent handshake
    | Warned(id: PeerId, level: nat)
    | Staged(id: PeerId, stage: nat, ok: bool)   // a stage write and whether it succeeded
    | Deleted(id: PeerId)

  datatype State = State(peers: map<PeerId, Peer>, log: seq<Event>)

  datatype Config = Config(enabled: bool, warnFirst: Time, warnSecond: Time, deleteAfter: Time, dryRun: bool)

  /** One row of the snapshot: what the sweep believes about a peer. */
  datatype Entry = Entry(id: PeerId, stage: nat, age: Time)

  datatype Gaps = Gaps(
    beforeWarn: set<PeerId>, beforeStage: set<PeerId>, stageOk: bool, beforeDelete: set<PeerId>, deleteOk: bool)

  // ----- The statements -----------------------------------------------------------

  /** MarkPeersActive: the time of the mark plays no part in what follows, so
      every mark may carry its own. */
  function MarkActive(s: State, ids: set<PeerId>, at: Time): State {
    State(map p | p in s.peers :: if p in ids then Peer(0, at) else s.peers[p], s.log + [Heard(ids)])
  }

  function Warn(s: State, id: PeerId, level: nat): State {
    s.(log := s.log + [Warned(id, level)])
  }

  function SetStage(s: State, id: PeerId, stage: nat, ok: bool): State {
    State(if ok && id in s.peers then s.peers[id := s.peers[id].(stage := stage)] else s.peers,
          s.log + [Staged(id, stage, ok)])
  }

  /** DELETE ... WHERE id = ? AND inactivity_warning_stage = 3 */
  function DeleteInactive(s: State, id: PeerId, ok: bool): State {
    if ok && id in s.peers && s.peers[id].stage == 3
    then State(s.peers - {id}, s.log + [Deleted(id)])
    else s
  }

  /** The warning due for an entry: its level, or 0. */
  function Due(cfg: Config, e: Entry): nat {
    if e.age >= cfg.deleteAfter then (if e.stage < 3 then 3 else 0)
    else if e.age >= cfg.warnSecond then (if e.stage < 2 then 2 else 0)
    else if e.age >= cfg.warnFirst then (if e.stage < 1 then 1 else 0)
    else 0
  }

  function SweepOne(cfg: Config, s: State, e: Entry, g: Gaps, at: Time): State {
    var s1 := MarkActive(s, g.beforeWarn, at);
    var due := Due(cfg, e);
    var s2 := if due > 0 && !cfg.dryRun then Warn(s1, e.id, due) else s1;
    var s3 := MarkActive(s2, g.beforeStage, at);
    var s4 := if due > 0 && !cfg.dryRun then SetStage(s3, e.id, due, g.stageOk) else s3;
    var s5 := MarkActive(s4, g.beforeDelete, at);
    if e.age >= cfg.deleteAfter && !cfg.dryRun then DeleteInactive(s5, e.id, g.deleteOk) else s5
  }

  function Sweep(cfg: Config, s: State, snap: seq<Entry>, gaps: seq<Gaps>, at: Time): State
    requires |gaps| == |snap|
    decreases |snap|
  {
    if snap == [] then s
    else Sweep(cfg, SweepOne(cfg, s, snap[0], gaps[0], at), snap[1..], gaps[1..], at)
  }

  /** ListInactiveActivePeers: peers with their stage and age, none twice. */
  ghost predicate IsSnapshot(s: State, snap: seq<Entry>, at: Time) {
    && (forall i, j :: 0 <= i < j < |snap| ==> snap[i].id != snap[j].id)
    && (forall i :: 0 <= i < |snap| ==>
          && snap[i].id in s.peers
          && snap[i].stage == s.peers[snap[i].id].stage
          && snap[i].age == at - s.peers[snap[i].id].lastActive)
  }

  ghost predicate StagesInRange(s: State) {
    forall p :: p in s.peers ==> s.peers[p].stage <= 3
  }

  // ----- Which peers does a sweep delete? ---------------------------------------------

  predicate HeardIn(g: Gaps, id: PeerId) {
    id in g.beforeWarn || id in g.beforeStage || id in g.beforeDelete
  }

  predicate HeardBefore(gaps: seq<Gaps>, id: PeerId) {
    exists k :: 0 <= k < |gaps| && HeardIn(gaps[k], id)
  }

  /** What one entry does to the peers of the others: heartbeats, nothing else. */
  lemma OthersOnlyHear(cfg: Config, s: State, e: Entry, g: Gaps, at: Time, id: PeerId)
    requires id != e.id
    ensures var z := SweepOne(cfg, s, e, g, at);
      && (id in z.peers <==> id in s.peers)
      && (id in z.peers ==> z.peers[id] == if HeardIn(g, id) then Peer(0, at) else s.peers[id])
  {
  }

  lemma {:induction false} UntouchedByOthers(
    cfg: Config, s: State, snap: seq<Entry>, gaps: seq<Gaps>, at: Time, id: PeerId)
    requires |gaps| == |snap| && forall i :: 0 <= i < |snap| ==> snap[i].id != id
    ensures var z := Sweep(cfg, s, snap, gaps, at);
      && (id in z.peers <==> id in s.peers)
      && (id in z.peers ==> z.peers[id] == if HeardBefore(gaps, id) then Peer(0, at) else s.peers[id])
    decreases |snap|
  {
    if snap != [] {
      OthersOnlyHear(cfg, s, snap[0], gaps[0], at, id);
      UntouchedByOthers(cfg, SweepOne(cfg, s, snap[0], gaps[0], at), snap[1..], gaps[1..], at, id);
      HeardBeforeCons(gaps, id);
    }
  }

  lemma HeardBeforeCons(gaps: seq<Gaps>, id: PeerId)
    requires gaps != []
    ensures HeardBefore(gaps, id) <==> HeardIn(gaps[0], id) || HeardBefore(gaps[1..], id)
  {
    if HeardBefore(gaps, id) {
      var k :| 0 <= k < |gaps| && HeardIn(gaps[k], id);
      if k > 0 {
        assert HeardIn(gaps[1..][k - 1], id);
      }
    }
    if HeardBefore(gaps[1..], id) {
      var k :| 0 <= k < |gaps[1..]| && HeardIn(gaps[1..][k], id);
      assert HeardIn(gaps[k + 1], id);
    }
  }

  lemma {:induction false} SweepSplits(
    cfg: Config, s: State, snap: seq<Entry>, gaps: seq<Gaps>, at: Time, i: nat)
    requires |gaps| == |snap| && i <= |snap|
    ensures Sweep(cfg, s, snap, gaps, at)
         == Sweep(cfg, Sweep(cfg, s, snap[..i], gaps[..i], at), snap[i..], gaps[i..], at)
    decreases i
  {
    if i == 0 {
      assert snap[..0] == [] && snap[0..] == snap && gaps[0..] == gaps;
    } else {
      SweepSplits(cfg, SweepOne(cfg, s, snap[0], gaps[0], at), snap[1..], gaps[1..], at, i - 1);
      assert snap[1..][..i - 1] == snap[..i][1..] && gaps[1..][..i - 1] == gaps[..i][1..];
      assert snap[1..][i - 1..] == snap[i..] && gaps[1..][i - 1..] == gaps[i..];
    }
  }

  /** What spares a peer past the delete threshold.  If the snapshot already
      showed the final stage, any heartbeat since the snapshot does; otherwise
      only one after the stage write.  A heartbeat before that write is lost. */
  predicate Spared(e: Entry, earlier: seq<Gaps>, own: Gaps) {
    || !own.deleteOk
    || (if e.stage == 3 then HeardBefore(earlier, e.id) || HeardIn(own, e.id)
        else !own.stageOk || e.id in own.beforeDelete)
  }

  /** A sweep deletes exactly the peers past the threshold that nothing spares,
      over every interleaving with heartbeats and every outcome of its writes. */
  lemma SweepDeletesExactly(
    cfg: Config, s: State, snap: seq<Entry>, gaps: seq<Gaps>, at: Time, i: nat)
    requires |gaps| == |snap| && i < |snap| && IsSnapshot(s, snap, at) && StagesInRange(s)
    ensures snap[i].id in Sweep(cfg, s, snap, gaps, at).peers <==>
            cfg.dryRun || snap[i].age < cfg.deleteAfter || Spared(snap[i], gaps[..i], gaps[i])
  {
    var e, g := snap[i], gaps[i];
    SweepSplits(cfg, s, snap, gaps, at, i);
    var before := Sweep(cfg, s, snap[..i], gaps[..i], at);
    UntouchedByOthers(cfg, s, snap[..i], gaps[..i], at, e.id);
    var own := SweepOne(cfg, before, e, g, at);
    assert snap[i..][0] == e && gaps[i..][0] == g;
    UntouchedByOthers(cfg, own, snap[i..][1..], gaps[i..][1..], at, e.id);
    OwnEntry(cfg, before, e, g, at, HeardBefore(gaps[..i], e.id));
  }

  lemma OwnEntry(cfg: Config, s: State, e: Entry, g: Gaps, at: Time, heard: bool)
    requires e.id in s.peers && e.stage <= 3
    requires s.peers[e.id].stage == if heard then 0 else e.stage
    ensures e.id in SweepOne(cfg, s, e, g, at).peers <==>
      || cfg.dryRun || e.age < cfg.deleteAfter || !g.deleteOk
      || (if e.stage == 3 then heard || HeardIn(g, e.id) else !g.stageOk || e.id in g.beforeDelete)
  {
  }

  /** The case the source's comment overlooks: a peer heard from between the
      snapshot and the stage write is deleted all the same. */
  lemma RevivedPeersCanBeDeleted(id: PeerId, at: Time)
    ensures var cfg := Config(true, 45, 50, 60, false);
            var s := State(map[id := Peer(0, at - 60)], []);
            var gaps := Gaps({}, {id}, true, {}, true);
      && IsSnapshot(s, [Entry(id, 0, 60)], at)
      && Sweep(cfg, s, [Entry(id, 0, 60)], [gaps], at) == State(map[],
           [Heard({}), Warned(id, 3), Heard({id}), Staged(id, 3, true), Heard({}), Deleted(id)])
  {
    var cfg := Config(true, 45, 50, 60, false);
    var s := State(map[id := Peer(0, at - 60)], []);
    var g := Gaps({}, {id}, true, {}, true);
    var z := SweepOne(cfg, s, Entry(id, 0, 60), g, at);
    assert z.peers == map[];
    assert Sweep(cfg, s, [Entry(id, 0, 60)], [g], at) == Sweep(cfg, z, [], [], at);
  }

  // ----- Which warnings does a sweep send? ------------------------------------------------

  /** The level an entry deserves, by the thresholds it has passed and what was sent
      before: the final one from the delete threshold on, the second from the second
      threshold up to there, the first from the first threshold up to the second. */
  predicate Deserves(cfg: Config, e: Entry, level: nat) {
    || (level == 3 && e.age >= cfg.deleteAfter && e.stage < 3)
    || (level == 2 && e.age < cfg.deleteAfter && e.age >= cfg.warnSecond && e.stage < 2)
    || (level == 1 && e.age < cfg.deleteAfter && e.age < cfg.warnSecond && e.age >= cfg.warnFirst && e.stage < 1)
  }

  predicate About(x: Event, id: PeerId) {
    (x.Warned? || x.Staged?) && x.id == id
  }

  /** The warnings to a peer and the writes of its stage, in order. */
  function Concerning(log: seq<Event>, id: PeerId): seq<Event> {
    if log == [] then []
    else
      var rest, x := Concerning(log[..|log| - 1], id), log[|log| - 1];
      if About(x, id) then rest + [x] else rest
  }

  lemma ConcerningAppend(log: seq<Event>, x: Event, id: PeerId)
    ensures Concerning(log + [x], id) == if About(x, id) then Concerning(log, id) + [x] else Concerning(log, id)
  {
    assert (log + [x])[..|log|] == log;
  }

  lemma HeardConcernsNobody(s: State, ids: set<PeerId>, at: Time, id: PeerId)
    ensures Concerning(MarkActive(s, ids, at).log, id) == Concerning(s.log, id)
  {
    ConcerningAppend(s.log, Heard(ids), id);
  }

  lemma DeletionConcernsNobody(s: State, gone: PeerId, ok: bool, id: PeerId)
    ensures Concerning(DeleteInactive(s, gone, ok).log, id) == Concerning(s.log, id)
  {
    ConcerningAppend(s.log, Deleted(gone), id);
  }

  /** A warning, heartbeats, and the write of its stage. */
  lemma WarningConcerns(s: State, warned: PeerId, level: nat, ids: set<PeerId>, at: Time, ok: bool, id: PeerId)
    ensures Concerning(SetStage(MarkActive(Warn(s, warned, level), ids, at), warned, level, ok).log, id)
         == if id == warned then Concerning(s.log, id) + [Warned(id, level), Staged(id, level, ok)]
            else Concerning(s.log, id)
  {
    var w := Warn(s, warned, level);
    ConcerningAppend(s.log, Warned(warned, level), id);
    HeardConcernsNobody(w, ids, at, id);
    ConcerningAppend(MarkActive(w, ids, at).log, Staged(warned, level, ok), id);
    var c := Concerning(s.log, id);
    assert c + [Warned(id, level)] + [Staged(id, level, ok)] == c + [Warned(id, level), Staged(id, level, ok)];
  }

  /** What one entry sends and writes, whatever its level. */
  lemma EntryConcerns(cfg: Config, s: State, e: Entry, g: Gaps, at: Time, id: PeerId)
    ensures var due := Due(cfg, e);
      Concerning(SweepOne(cfg, s, e, g, at).log, id)
        == if due > 0 && !cfg.dryRun && id == e.id
           then Concerning(s.log, id) + [Warned(id, due), Staged(id, due, g.stageOk)] else Concerning(s.log, id)
  {
    var s1 := MarkActive(s, g.beforeWarn, at);
    HeardConcernsNobody(s, g.beforeWarn, at, id);
    var s4 := MiddleOf(cfg, s1, e, g, at);
    MiddleConcerns(cfg, s1, e, g, at, id);
    EndConcernsNobody(cfg, s4, e, g, at, id);
    SweepOneParts(cfg, s, e, g, at);
  }

  /** Warning, heartbeats and stage write of an entry, if it has a warning due. */
  function MiddleOf(cfg: Config, s: State, e: Entry, g: Gaps, at: Time): State {
    if Due(cfg, e) > 0 && !cfg.dryRun
    then SetStage(MarkActive(Warn(s, e.id, Due(cfg, e)), g.beforeStage, at), e.id, Due(cfg, e), g.stageOk)
    else MarkActive(s, g.beforeStage, at)
  }

  lemma SweepOneParts(cfg: Config, s: State, e: Entry, g: Gaps, at: Time)
    ensures var z := MarkActive(MiddleOf(cfg, MarkActive(s, g.beforeWarn, at), e, g, at), g.beforeDelete, at);
      || SweepOne(cfg, s, e, g, at) == z
      || SweepOne(cfg, s, e, g, at) == DeleteInactive(z, e.id, g.deleteOk)
  {
  }

  lemma MiddleConcerns(cfg: Config, s: State, e: Entry, g: Gaps, at: Time, id: PeerId)
    ensures var due := Due(cfg, e);
      Concerning(MiddleOf(cfg, s, e, g, at).log, id)
        == if due > 0 && !cfg.dryRun && id == e.id
           then Concerning(s.log, id) + [Warned(id, due), Staged(id, due, g.stageOk)] else Concerning(s.log, id)
  {
    WarningConcerns(s, e.id, Due(cfg, e), g.beforeStage, at, g.stageOk, id);
    HeardConcernsNobody(s, g.beforeStage, at, id);
  }

  /** The last part of an entry: heartbeats and the deletion. */
  lemma EndConcernsNobody(cfg: Config, s: State, e: Entry, g: Gaps, at: Time, id: PeerId)
    ensures var z := MarkActive(s, g.beforeDelete, at);
      && Concerning(z.log, id) == Concerning(s.log, id)
      && Concerning(DeleteInactive(z, e.id, g.deleteOk).log, id) == Concerning(s.log, id)
  {
    HeardConcernsNobody(s, g.beforeDelete, at, id);
    DeletionConcernsNobody(MarkActive(s, g.beforeDelete, at), e.id, g.deleteOk, id);
  }

  lemma {:induction false} OthersAreNotWarned(
    cfg: Config, s: State, snap: seq<Entry>, gaps: seq<Gaps>, at: Time, id: PeerId)
    requires |gaps| == |snap| && forall i :: 0 <= i < |snap| ==> snap[i].id != id
    ensures Concerning(Sweep(cfg, s, snap, gaps, at).log, id) == Concerning(s.log, id)
    decreases |snap|
  {
    if snap != [] {
      EntryConcerns(cfg, s, snap[0], gaps[0], at, id);
      OthersAreNotWarned(cfg, SweepOne(cfg, s, snap[0], gaps[0], at), snap[1..], gaps[1..], at, id);
    }
  }

  /** Between two logs, a peer was sent exactly the warning its entry deserves, followed
      by one write of the same stage, or nothing. */
  ghost predicate WarnedAsDeserved(cfg: Config, e: Entry, stageOk: bool, before: seq<Event>, after: seq<Event>) {
    && (forall level: nat :: Deserves(cfg, e, level) && !cfg.dryRun ==>
          Concerning(after, e.id) == Concerning(before, e.id) + [Warned(e.id, level), Staged(e.id, level, stageOk)])
    && ((cfg.dryRun || forall level: nat :: !Deserves(cfg, e, level)) ==>
          Concerning(after, e.id) == Concerning(before, e.id))
  }

  /** Over every interleaving with heartbeats and every outcome of its writes, a sweep
      sends each peer of its snapshot exactly the warning it deserves, and no other
      peer any. */
  lemma SweepWarnsExactly(cfg: Config, s: State, snap: seq<Entry>, gaps: seq<Gaps>, at: Time, i: nat)
    requires |gaps| == |snap| && i < |snap|
    requires forall j, k :: 0 <= j < k < |snap| ==> snap[j].id != snap[k].id
    ensures WarnedAsDeserved(cfg, snap[i], gaps[i].stageOk, s.log, Sweep(cfg, s, snap, gaps, at).log)
  {
    var e, g := snap[i], gaps[i];
    SweepSplits(cfg, s, snap, gaps, at, i);
    var before := Sweep(cfg, s, snap[..i], gaps[..i], at);
    OthersAreNotWarned(cfg, s, snap[..i], gaps[..i], at, e.id);
    var own := SweepOne(cfg, before, e, g, at);
    EntryConcerns(cfg, before, e, g, at, e.id);
    assert snap[i..][0] == e && gaps[i..][0] == g;
    OthersAreNotWarned(cfg, own, snap[i..][1..], gaps[i..][1..], at, e.id);
    DueIsDeserved(cfg, e);
  }

  lemma DueIsDeserved(cfg: Config, e: Entry)
    ensures forall level: nat :: Deserves(cfg, e, level) ==> level > 0 && Due(cfg, e) == level
    ensures Due(cfg, e) > 0 ==> Deserves(cfg, e, Due(cfg, e))
  {
  }

  // ----- Warnings over any number of sweeps --------------------------------------------

  predicate Hears(x: Event, id: PeerId) {
    x.Heard? && id in x.ids
  }

  /** `x` has happened since the peer was last heard from. */
  ghost predicate Since(log: seq<Event>, id: PeerId, x: Event) {
    exists k :: 0 <= k < |log| && log[k] == x && Unheard(log, k, id)
  }

  /** Nothing was heard from the peer after entry `k` of the log. */
  ghost predicate Unheard(log: seq<Event>, k: int, id: PeerId) {
    forall m :: k < m < |log| && 0 <= m ==> !Hears(log[m], id)
  }

  /** A warning of this level has been sent in the current inactive period. */
  ghost predicate Fired(log: seq<Event>, id: PeerId, level: nat) {
    Since(log, id, Warned(id, level))
  }

  /** A warning is repeated within one inactive period only after a failed write of
      its stage in that period. */
  ghost predicate RepeatsExcused(log: seq<Event>) {
    forall j :: 0 <= j < |log| && log[j].Warned? && Fired(log[..j], log[j].id, log[j].level) ==>
      Since(log[..j], log[j].id, Staged(log[j].id, log[j].level, false))
  }

  /** Within one inactive period no level is sent twice. */
  ghost predicate OncePerPeriod(log: seq<Event>) {
    forall j :: 0 <= j < |log| && log[j].Warned? ==> !Fired(log[..j], log[j].id, log[j].level)
  }

  /** The last successful write of the final stage came after a heartbeat that had
      answered the final warning before it. */
  ghost predicate OverwroteHeartbeat(log: seq<Event>, id: PeerId) {
    exists v, h, w :: 0 <= v < h < w < |log| &&
      log[v] == Warned(id, 3) && Hears(log[h], id) && log[w] == Staged(id, 3, true) &&
      Absent(log, v, w, Warned(id, 3)) && Absent(log, w, |log|, Staged(id, 3, true))
  }

  /** `x` does not occur strictly between two entries. */
  predicate Absent(log: seq<Event>, lo: int, hi: int, x: Event)
    requires 0 <= lo <= hi <= |log|
  {
    forall k :: lo < k < hi ==> log[k] != x
  }

  /** Every deletion comes after a final warning; and it lacks one since the last
      heartbeat exactly when the stage write it relies on overwrote a heartbeat. */
  ghost predicate DeletionsExplained(log: seq<Event>) {
    forall j :: 0 <= j < |log| && log[j].Deleted? ==>
      && Warned(log[j].id, 3) in log[..j]
      && (!Fired(log[..j], log[j].id, 3) <==> OverwroteHeartbeat(log[..j], log[j].id))
  }

  /** Entry `w` is the write a final stage relies on: it followed a final warning,
      and nothing has concerned the peer since. */
  ghost predicate Vouches(log: seq<Event>, id: PeerId, w: int) {
    && 0 <= w < |log| && log[w] == Staged(id, 3, true)
    && Warned(id, 3) in log[..w]
    && Unheard(log, w, id) && Absent(log, w, |log|, Warned(id, 3)) && Absent(log, w, |log|, Staged(id, 3, true))
  }

  ghost predicate Vouched(log: seq<Event>, id: PeerId) {
    exists w :: Vouches(log, id, w)
  }

  /** The stored stage lags behind the warnings sent only where a write failed, and
      a final stage is vouched for. */
  ghost predicate Tracks(s: State) {
    && (forall p, l: nat :: p in s.peers && Fired(s.log, p, l) ==>
          l <= s.peers[p].stage || Since(s.log, p, Staged(p, l, false)))
    && (forall p :: p in s.peers && s.peers[p].stage == 3 ==> Vouched(s.log, p))
  }

  ghost predicate Good(s: State) {
    Tracks(s) && RepeatsExcused(s.log) && DeletionsExplained(s.log)
  }

  /** The snapshot entry of a peer not yet processed is current, or the peer has
      been heard from since and no warning has followed. */
  ghost predicate Current(s: State, e: Entry) {
    e.id in s.peers ==>
      s.peers[e.id].stage == e.stage || (s.peers[e.id].stage == 0 && forall l :: !Fired(s.log, e.id, l))
  }

  // ----- One more event ------------------------------------------------------------------

  lemma SinceAfter(log: seq<Event>, x: Event, id: PeerId, y: Event)
    requires !Hears(y, id)
    ensures Since(log + [x], id, y) <==> !Hears(x, id) && (x == y || Since(log, id, y))
  {
    var longer := log + [x];
    if Since(longer, id, y) {
      var k :| 0 <= k < |longer| && longer[k] == y && Unheard(longer, k, id);
      assert k < |log| ==> !Hears(longer[|log|], id);
      if k < |log| {
        assert forall m :: k < m < |log| ==> longer[m] == log[m];
        assert log[k] == y && Unheard(log, k, id);
      }
    }
    if !Hears(x, id) && x == y {
      assert longer[|log|] == y && Unheard(longer, |log|, id);
    } else if !Hears(x, id) && Since(log, id, y) {
      var k :| 0 <= k < |log| && log[k] == y && Unheard(log, k, id);
      assert longer[k] == y && Unheard(longer, k, id);
    }
  }

  lemma VouchedAfter(log: seq<Event>, x: Event, id: PeerId)
    requires Vouched(log, id) && !Hears(x, id) && x != Warned(id, 3) && x != Staged(id, 3, true)
    ensures Vouched(log + [x], id)
  {
    var w :| Vouches(log, id, w);
    assert (log + [x])[..w] == log[..w];
    assert Vouches(log + [x], id, w);
  }

  lemma NewlyVouched(log: seq<Event>, id: PeerId)
    requires Warned(id, 3) in log
    ensures Vouched(log + [Staged(id, 3, true)], id)
  {
    assert (log + [Staged(id, 3, true)])[..|log|] == log;
    assert Vouches(log + [Staged(id, 3, true)], id, |log|);
  }

  lemma ExcusedAfter(log: seq<Event>, x: Event)
    requires RepeatsExcused(log)
    requires x.Warned? && Fired(log, x.id, x.level) ==> Since(log, x.id, Staged(x.id, x.level, false))
    ensures RepeatsExcused(log + [x])
  {
    var longer := log + [x];
    forall j | 0 <= j < |longer| && longer[j].Warned? && Fired(longer[..j], longer[j].id, longer[j].level)
      ensures Since(longer[..j], longer[j].id, Staged(longer[j].id, longer[j].level, false))
    {
      assert longer[..j] == log[..j];
      assert j == |log| ==> log[..j] == log;
    }
  }

  lemma ExplainedAfter(log: seq<Event>, x: Event)
    requires DeletionsExplained(log) && (x.Deleted? ==> Vouched(log, x.id))
    ensures DeletionsExplained(log + [x])
  {
    var longer := log + [x];
    forall j | 0 <= j < |longer| && longer[j].Deleted?
      ensures Warned(longer[j].id, 3) in longer[..j]
      ensures !Fired(longer[..j], longer[j].id, 3) <==> OverwroteHeartbeat(longer[..j], longer[j].id)
    {
      assert longer[..j] == log[..j];
      if j == |log| {
        assert log[..j] == log;
        VouchedDeletion(log, x.id);
      }
    }
  }

  /** What vouches for the final stage decides both sides of the explanation. */
  lemma VouchedDeletion(log: seq<Event>, id: PeerId)
    requires Vouched(log, id)
    ensures Warned(id, 3) in log
    ensures !Fired(log, id, 3) <==> OverwroteHeartbeat(log, id)
  {
    var w :| Vouches(log, id, w);
    var v := LastBefore(log, w, Warned(id, 3));
    if Fired(log, id, 3) {
      StillWarned(log, id, v, w);
    } else {
      assert !Unheard(log, v, id);
      var h :| v < h < |log| && Hears(log[h], id);
      assert h < w;
    }
  }

  /** A final warning that no heartbeat has answered rules an overwritten one out. */
  lemma StillWarned(log: seq<Event>, id: PeerId, v: int, w: int)
    requires Vouches(log, id, w) && 0 <= v < w && log[v] == Warned(id, 3) && Absent(log, v, w, Warned(id, 3))
    requires Fired(log, id, 3)
    ensures !OverwroteHeartbeat(log, id)
  {
    var k :| 0 <= k < |log| && log[k] == Warned(id, 3) && Unheard(log, k, id);
    assert k <= v;
    forall v', h', w' |
      0 <= v' < h' < w' < |log| && log[v'] == Warned(id, 3) && log[w'] == Staged(id, 3, true) &&
      Absent(log, v', w', Warned(id, 3)) && Absent(log, w', |log|, Staged(id, 3, true))
      ensures !Hears(log[h'], id)
    {
      assert w' == w;
      assert v' == v;
    }
  }

  lemma {:induction false} LastBefore(log: seq<Event>, w: nat, x: Event) returns (v: nat)
    requires w <= |log| && x in log[..w]
    ensures v < w && log[v] == x && Absent(log, v, w, x)
    decreases w
  {
    if log[w - 1] == x {
      v := w - 1;
    } else {
      assert log[..w] == log[..w - 1] + [log[w - 1]];
      v := LastBefore(log, w - 1, x);
    }
  }

  // ----- What every statement keeps -------------------------------------------------------

  lemma MarkKeeps(s: State, ids: set<PeerId>, at: Time)
    requires Good(s)
    ensures Good(MarkActive(s, ids, at))
  {
    var x := Heard(ids);
    var z := MarkActive(s, ids, at);
    ExcusedAfter(s.log, x);
    ExplainedAfter(s.log, x);
    forall p, l: nat | p in z.peers && Fired(z.log, p, l)
      ensures l <= z.peers[p].stage || Since(z.log, p, Staged(p, l, false))
    {
      SinceAfter(s.log, x, p, Warned(p, l));
      SinceAfter(s.log, x, p, Staged(p, l, false));
    }
    forall p | p in z.peers && z.peers[p].stage == 3 ensures Vouched(z.log, p) {
      VouchedAfter(s.log, x, p);
    }
  }

  /** While a warning waits for its stage write, only that peer may lag. */
  ghost predicate AlmostGood(s: State, id: PeerId, level: nat) {
    && (forall p, l: nat :: p in s.peers && (p != id || l != level) && Fired(s.log, p, l) ==>
          l <= s.peers[p].stage || Since(s.log, p, Staged(p, l, false)))
    && (forall p :: p in s.peers && s.peers[p].stage == 3 ==> Vouched(s.log, p))
    && (id in s.peers ==> s.peers[id].stage < level)
    && Warned(id, level) in s.log
    && RepeatsExcused(s.log) && DeletionsExplained(s.log)
  }

  lemma WarnKeeps(s: State, id: PeerId, level: nat)
    requires Good(s) && 1 <= level <= 3 && id in s.peers && s.peers[id].stage < level
    ensures AlmostGood(Warn(s, id, level), id, level)
  {
    var x := Warned(id, level);
    var z := Warn(s, id, level);
    ExcusedAfter(s.log, x);
    ExplainedAfter(s.log, x);
    forall p, l: nat | p in z.peers && (p != id || l != level) && Fired(z.log, p, l)
      ensures l <= z.peers[p].stage || Since(z.log, p, Staged(p, l, false))
    {
      SinceAfter(s.log, x, p, Warned(p, l));
      SinceAfter(s.log, x, p, Staged(p, l, false));
    }
    forall p | p in z.peers && z.peers[p].stage == 3 ensures Vouched(z.log, p) {
      VouchedAfter(s.log, x, p);
    }
  }

  lemma MarkKeepsAlmost(s: State, id: PeerId, level: nat, ids: set<PeerId>, at: Time)
    requires AlmostGood(s, id, level) && level >= 1
    ensures AlmostGood(MarkActive(s, ids, at), id, level)
  {
    var x := Heard(ids);
    var z := MarkActive(s, ids, at);
    ExcusedAfter(s.log, x);
    ExplainedAfter(s.log, x);
    forall p, l: nat | p in z.peers && (p != id || l != level) && Fired(z.log, p, l)
      ensures l <= z.peers[p].stage || Since(z.log, p, Staged(p, l, false))
    {
      SinceAfter(s.log, x, p, Warned(p, l));
      SinceAfter(s.log, x, p, Staged(p, l, false));
    }
    forall p | p in z.peers && z.peers[p].stage == 3 ensures Vouched(z.log, p) {
      VouchedAfter(s.log, x, p);
    }
  }

  lemma StageKeeps(s: State, id: PeerId, level: nat, ok: bool)
    requires AlmostGood(s, id, level) && 1 <= level <= 3
    ensures Good(SetStage(s, id, level, ok))
  {
    var x := Staged(id, level, ok);
    var z := SetStage(s, id, level, ok);
    ExcusedAfter(s.log, x);
    ExplainedAfter(s.log, x);
    forall p, l: nat | p in z.peers && Fired(z.log, p, l)
      ensures l <= z.peers[p].stage || Since(z.log, p, Staged(p, l, false))
    {
      SinceAfter(s.log, x, p, Warned(p, l));
      SinceAfter(s.log, x, p, Staged(p, l, false));
    }
    forall p | p in z.peers && z.peers[p].stage == 3 ensures Vouched(z.log, p) {
      if p == id && ok {
        NewlyVouched(s.log, id);
      } else {
        VouchedAfter(s.log, x, p);
      }
    }
  }

  lemma WarnAndStageKeep(s: State, id: PeerId, level: nat, ids: set<PeerId>, at: Time, ok: bool)
    requires Good(s) && 1 <= level <= 3 && id in s.peers && s.peers[id].stage < level
    ensures Good(SetStage(MarkActive(Warn(s, id, level), ids, at), id, level, ok))
  {
    var w := Warn(s, id, level);
    WarnKeeps(s, id, level);
    MarkKeepsAlmost(w, id, level, ids, at);
    StageKeeps(MarkActive(w, ids, at), id, level, ok);
  }

  lemma DeleteKeeps(s: State, id: PeerId, ok: bool)
    requires Good(s)
    ensures Good(DeleteInactive(s, id, ok))
  {
    if ok && id in s.peers && s.peers[id].stage == 3 {
      var x := Deleted(id);
      var z := DeleteInactive(s, id, ok);
      ExcusedAfter(s.log, x);
      ExplainedAfter(s.log, x);
      forall p, l: nat | p in z.peers && Fired(z.log, p, l)
        ensures l <= z.peers[p].stage || Since(z.log, p, Staged(p, l, false))
      {
        SinceAfter(s.log, x, p, Warned(p, l));
        SinceAfter(s.log, x, p, Staged(p, l, false));
      }
      forall p | p in z.peers && z.peers[p].stage == 3 ensures Vouched(z.log, p) {
        VouchedAfter(s.log, x, p);
      }
    }
  }

  // ----- Whole sweeps and histories -----------------------------------------------------------

  lemma SweepOneKeeps(cfg: Config, s: State, e: Entry, g: Gaps, at: Time)
    requires Good(s) && Current(s, e) && e.id in s.peers
    ensures Good(SweepOne(cfg, s, e, g, at))
  {
    var s1 := MarkActive(s, g.beforeWarn, at);
    MarkKeeps(s, g.beforeWarn, at);
    var due := Due(cfg, e);
    var s4;
    if due > 0 && !cfg.dryRun {
      assert s1.peers[e.id].stage < due;
      WarnAndStageKeep(s1, e.id, due, g.beforeStage, at, g.stageOk);
      s4 := SetStage(MarkActive(Warn(s1, e.id, due), g.beforeStage, at), e.id, due, g.stageOk);
    } else {
      MarkKeeps(s1, g.beforeStage, at);
      s4 := MarkActive(s1, g.beforeStage, at);
    }
    MarkKeeps(s4, g.beforeDelete, at);
    DeleteKeeps(MarkActive(s4, g.beforeDelete, at), e.id, g.deleteOk);
  }

  /** Something that does not concern the peer leaves its entry current. */
  lemma OtherEventKeepsCurrent(s: State, z: State, x: Event, f: Entry)
    requires Current(s, f) && z.log == s.log + [x] && (forall l: nat :: x != Warned(f.id, l))
    requires f.id in z.peers ==>
      f.id in s.peers && z.peers[f.id].stage == (if Hears(x, f.id) then 0 else s.peers[f.id].stage)
    ensures Current(z, f)
  {
    forall l: nat ensures Fired(z.log, f.id, l) <==> !Hears(x, f.id) && Fired(s.log, f.id, l) {
      SinceAfter(s.log, x, f.id, Warned(f.id, l));
    }
  }

  /** Processing one entry leaves the entries of other peers current. */
  lemma OthersStayCurrent(cfg: Config, s: State, e: Entry, g: Gaps, at: Time, f: Entry)
    requires Current(s, f) && f.id != e.id
    ensures Current(SweepOne(cfg, s, e, g, at), f)
  {
    var s1 := MarkActive(s, g.beforeWarn, at);
    OtherEventKeepsCurrent(s, s1, Heard(g.beforeWarn), f);
    var due := Due(cfg, e);
    var acts := due > 0 && !cfg.dryRun;
    var s2 := if acts then Warn(s1, e.id, due) else s1;
    if acts {
      OtherEventKeepsCurrent(s1, s2, Warned(e.id, due), f);
    }
    var s3 := MarkActive(s2, g.beforeStage, at);
    OtherEventKeepsCurrent(s2, s3, Heard(g.beforeStage), f);
    var s4 := if acts then SetStage(s3, e.id, due, g.stageOk) else s3;
    if acts {
      OtherEventKeepsCurrent(s3, s4, Staged(e.id, due, g.stageOk), f);
    }
    var s5 := MarkActive(s4, g.beforeDelete, at);
    OtherEventKeepsCurrent(s4, s5, Heard(g.beforeDelete), f);
    var s6 := DeleteInactive(s5, e.id, g.deleteOk);
    if s6 != s5 {
      OtherEventKeepsCurrent(s5, s6, Deleted(e.id), f);
    }
  }

  ghost predicate AllCurrent(s: State, snap: seq<Entry>) {
    && (forall i, j :: 0 <= i < j < |snap| ==> snap[i].id != snap[j].id)
    && (forall i :: 0 <= i < |snap| ==> snap[i].id in s.peers && Current(s, snap[i]))
  }

  lemma {:induction false} SweepKeeps(cfg: Config, s: State, snap: seq<Entry>, gaps: seq<Gaps>, at: Time)
    requires |gaps| == |snap| && Good(s) && AllCurrent(s, snap)
    ensures Good(Sweep(cfg, s, snap, gaps, at))
    decreases |snap|
  {
    if snap != [] {
      var z := SweepOne(cfg, s, snap[0], gaps[0], at);
      SweepOneKeeps(cfg, s, snap[0], gaps[0], at);
      forall i | 0 <= i < |snap[1..]|
        ensures snap[1..][i].id in z.peers && Current(z, snap[1..][i])
      {
        OthersOnlyHear(cfg, s, snap[0], gaps[0], at, snap[i + 1].id);
        OthersStayCurrent(cfg, s, snap[0], gaps[0], at, snap[i + 1]);
      }
      SweepKeeps(cfg, z, snap[1..], gaps[1..], at);
    }
  }

  /** The life of the table between and during sweeps. */
  datatype Round =
    | Beat(ids: set<PeerId>, at: Time)
    | Join(id: PeerId, at: Time)          // a new row, never seen before
    | Daily(snap: seq<Entry>, gaps: seq<Gaps>, at: Time)

  ghost predicate RoundFits(s: State, r: Round) {
    match r
    case Beat(_, _) => true
    case Join(id, _) => id !in s.peers && forall l :: !Fired(s.log, id, l)
    case Daily(snap, gaps, at) => IsSnapshot(s, snap, at) && |gaps| == |snap|
  }

  ghost function PlayRound(cfg: Config, s: State, r: Round): State
    requires RoundFits(s, r)
  {
    match r
    case Beat(ids, at) => MarkActive(s, ids, at)
    case Join(id, at) => s.(peers := s.peers[id := Peer(0, at)])
    case Daily(snap, gaps, at) => if cfg.enabled then Sweep(cfg, s, snap, gaps, at) else s
  }

  ghost predicate IsHistory(cfg: Config, s: State, rounds: seq<Round>)
    decreases |rounds|
  {
    rounds == [] || (RoundFits(s, rounds[0]) && IsHistory(cfg, PlayRound(cfg, s, rounds[0]), rounds[1..]))
  }

  ghost function Play(cfg: Config, s: State, rounds: seq<Round>): State
    requires IsHistory(cfg, s, rounds)
    decreases |rounds|
  {
    if rounds == [] then s else Play(cfg, PlayRound(cfg, s, rounds[0]), rounds[1..])
  }

  lemma {:induction false} HistoriesTrack(cfg: Config, s: State, rounds: seq<Round>)
    requires IsHistory(cfg, s, rounds) && Good(s)
    ensures Good(Play(cfg, s, rounds))
    decreases |rounds|
  {
    if rounds != [] {
      match rounds[0] {
        case Beat(ids, at) => MarkKeeps(s, ids, at);
        case Join(id, at) =>
        case Daily(snap, gaps, at) => SweepKeeps(cfg, s, snap, gaps, at);
      }
      HistoriesTrack(cfg, PlayRound(cfg, s, rounds[0]), rounds[1..]);
    }
  }

  /** Over any history of heartbeats, new peers and sweeps, however interleaved and
      whichever writes fail: every deleted peer had the final warning first, and had
      it since it was last heard from unless the stage write the deletion relies on
      overwrote a heartbeat; a warning is repeated in one inactive period only after
      a failed write of its stage; so if stage writes succeed, never. */
  lemma WarningsAreOrderly(cfg: Config, rounds: seq<Round>)
    requires IsHistory(cfg, State(map[], []), rounds)
    ensures var log := Play(cfg, State(map[], []), rounds).log;
      && DeletionsExplained(log)
      && RepeatsExcused(log)
      && ((forall k :: 0 <= k < |log| && log[k].Staged? ==> log[k].ok) ==> OncePerPeriod(log))
  {
    HistoriesTrack(cfg, State(map[], []), rounds);
    var log := Play(cfg, State(map[], []), rounds).log;
    if forall k :: 0 <= k < |log| && log[k].Staged? ==> log[k].ok {
      forall j | 0 <= j < |log| && log[j].Warned? ensures !Fired(log[..j], log[j].id, log[j].level) {
        var x := Staged(log[j].id, log[j].level, false);
        assert forall k :: 0 <= k < j ==> log[..j][k] == log[k] != x;
      }
    }
  }

  // ----- The worker ---------------------------------------------------------------------

  class Worker {
    const cfg: Config
    var peers: map<PeerId, Peer>
    var log: seq<Event>

    constructor (cfg: Config, peers: map<PeerId, Peer>)
      ensures this.cfg == cfg && this.peers == peers && log == []
    {
      this.cfg, this.peers, log := cfg, peers, [];
    }

    function Now(): State
      reads this
    {
      State(peers, log)
    }

    method MarkPeersActive(ids: set<PeerId>, at: Time)
      modifies this
      ensures Now() == MarkActive(old(Now()), ids, at)
      ensures peers.Keys == old(peers).Keys
      ensures forall p :: p in peers ==> peers[p] == if p in ids then Peer(0, at) else old(peers)[p]
    {
      peers := map p | p in peers :: if p in ids then Peer(0, at) else peers[p];
      log := log + [Heard(ids)];
    }

    method SendWarning(id: PeerId, level: nat)
      modifies `log
      ensures Now() == if cfg.dryRun then old(Now()) else Warn(old(Now()), id, level)
    {
      if !cfg.dryRun {
        log := log + [Warned(id, level)];
      }
    }

    method SetInactivityWarningStage(id: PeerId, stage: nat, ok: bool)
      modifies this
      ensures Now() == SetStage(old(Now()), id, stage, ok)
      ensures peers.Keys == old(peers).Keys
      ensures forall p :: p in peers ==>
        peers[p] == if p == id && ok then Peer(stage, old(peers)[p].lastActive) else old(peers)[p]
    {
      if ok && id in peers {
        peers := peers[id := peers[id].(stage := stage)];
      }
      log := log + [Staged(id, stage, ok)];
    }

    method DeletePeer(id: PeerId, ok: bool)
      modifies this
      ensures Now() == if cfg.dryRun then old(Now()) else DeleteInactive(old(Now()), id, ok)
      ensures id in old(peers) && id !in peers <==> id in old(peers) && old(peers)[id].stage == 3 && ok && !cfg.dryRun
      ensures forall p :: p != id ==> (p in peers <==> p in old(peers)) && (p in peers ==> peers[p] == old(peers)[p])
    {
      if !cfg.dryRun && ok && id in peers && peers[id].stage == 3 {
        peers := peers - {id};
        log := log + [Deleted(id)];
      }
    }

    /** One sweep over a snapshot, with the heartbeats that land in its gaps. */
    method RunSweep(snap: seq<Entry>, gaps: seq<Gaps>, at: Time)
      requires |gaps| == |snap|
      modifies this
      ensures Now() == if cfg.enabled then Sweep(cfg, old(Now()), snap, gaps, at) else old(Now())
      ensures cfg.enabled && (forall j, k :: 0 <= j < k < |snap| ==> snap[j].id != snap[k].id) ==>
        forall i :: 0 <= i < |snap| ==> WarnedAsDeserved(cfg, snap[i], gaps[i].stageOk, old(log), log)
    {
      SweepLoop(snap, gaps, at);
      if cfg.enabled && (forall j, k :: 0 <= j < k < |snap| ==> snap[j].id != snap[k].id) {
        forall i | 0 <= i < |snap| ensures WarnedAsDeserved(cfg, snap[i], gaps[i].stageOk, old(log), log) {
          SweepWarnsExactly(cfg, old(Now()), snap, gaps, at, i);
        }
      }
    }

    method SweepLoop(snap: seq<Entry>, gaps: seq<Gaps>, at: Time)
      requires |gaps| == |snap|
      modifies this
      ensures Now() == if cfg.enabled then Sweep(cfg, old(Now()), snap, gaps, at) else old(Now())
    {
      if !cfg.enabled {
        return;
      }
      var i := 0;
      while i < |snap|
        invariant 0 <= i <= |snap|
        invariant Sweep(cfg, Now(), snap[i..], gaps[i..], at) == Sweep(cfg, old(Now()), snap, gaps, at)
      {
        assert snap[i..][1..] == snap[i + 1..] && gaps[i..][1..] == gaps[i + 1..];
        SweepEntry(snap[i], gaps[i], at);
        i := i + 1;
      }
    }

    /** The body of the loop. */
    method SweepEntry(e: Entry, g: Gaps, at: Time)
      modifies this
      ensures Now() == SweepOne(cfg, old(Now()), e, g, at)
    {
      MarkPeersActive(g.beforeWarn, at);
      if e.age >= cfg.deleteAfter {
        var final := e.stage < 3;
        if final {
          SendWarning(e.id, 3);
        }
        MarkPeersActive(g.beforeStage, at);
        if final && !cfg.dryRun {
          SetInactivityWarningStage(e.id, 3, g.stageOk);
        }
        MarkPeersActive(g.beforeDelete, at);
        DeletePeer(e.id, g.deleteOk);
      } else {
        var level := 0;
        if e.age >= cfg.warnSecond {
          if e.stage < 2 {
            level := 2;
          }
        } else if e.age >= cfg.warnFirst && e.stage < 1 {
          level := 1;
        }
        if level > 0 {
          SendWarning(e.id, level);
        }
        MarkPeersActive(g.beforeStage, at);
        if level > 0 && !cfg.dryRun {
          SetInactivityWarningStage(e.id, level, g.stageOk);
        }
        MarkPeersActive(g.beforeDelete, at);
      }
    }
  }
}
