/**
  One V2 session: its lifecycle state, its bound paths, the persistent epoch
  history of path identifiers, and the bounded quarantine of detached ones.

  The first part gives the session as a value with the meaning of each
  operation; the class `V2Session` is the mutable object, each of whose methods
  is proved to act as that meaning says; the last part proves what holds over
  whole runs.
*/
module SessionV2 {
  import opened Prelude
  import opened Quarantine

  datatype SessionState = Pending | Active | Draining | Closed

  datatype PathState = Connecting | Attached | Healthy | Suspect | Failed | Reconnecting

  datatype Config = Config(maximumPaths: nat, maximumPathEpochHistory: nat,
                           maximumPathTombstones: nat, pathTombstoneTtlMs: u64)

  datatype Admission = Admission(sessionId: seq<u8>, deviceId: seq<u8>, expiresAtMs: u64)

  datatype Binding = Binding(pathId: u16, pathEpoch: u64, keyEpoch: u32, connectionId: u64, state: PathState)

  datatype Reservation = Reservation(pathId: u16, pathEpoch: u64, keyEpoch: u32, connectionId: u64)

  datatype PathEntry = PathEntry(binding: Binding, reserved: bool)

  datatype Epochs = Epochs(pathEpoch: u64, keyEpoch: u32)

  datatype LifecycleError =
    | InvalidConfiguration | Expired | InvalidSessionState | InvalidPathEpoch | InvalidKeyEpoch
    | ConnectionAlreadyBound | PathCapacity | PathIdentifierExhausted | UnknownReservation | InvalidPathState

  datatype Session = Session(
    admission: Admission,
    config: Config,
    state: SessionState,
    paths: map<u16, PathEntry>,
    nextPathId: u16,
    history: map<u16, Epochs>,
    tombs: Tombs)

  // ---------------------------------------------------------------------
  // Meaning of the operations
  // ---------------------------------------------------------------------

  predicate ConfigAccepted(c: Config, a: Admission) {
    && 1 <= c.maximumPaths <= U16_MAX
    && c.maximumPaths <= c.maximumPathEpochHistory <= U16_MAX
    && c.maximumPathTombstones != 0
    && c.pathTombstoneTtlMs != 0
    && a.expiresAtMs != 0
  }

  function New(c: Config, a: Admission, now: u64): Result<Session, LifecycleError> {
    if !ConfigAccepted(c, a) then Err(InvalidConfiguration)
    else if now >= a.expiresAtMs then Err(Expired)
    else Ok(Session(a, c, Pending, map[], 1, map[], Tombs(map[], [], 0, 0)))
  }

  function Prune(s: Session, now: u64): Session {
    s.(tombs := PruneTombs(s.tombs, now))
  }

  /** May `id` be issued with these epochs? */
  predicate Admissible(s: Session, id: u16, pathEpoch: u64, keyEpoch: u32) {
    && id != 0
    && id !in s.paths
    && id !in s.tombs.live
    && if id in s.history then s.history[id].pathEpoch < pathEpoch && s.history[id].keyEpoch < keyEpoch
       else |s.history| < s.config.maximumPathEpochHistory
  }

  /** How many cursor advances lead from `cursor` to `id` around the ring 1..65535. */
  function Distance(cursor: u16, id: u16): nat {
    (id - cursor) % 65535
  }

  /** The identifier reached after `k` cursor advances. */
  function Advance(cursor: u16, k: nat): u16
    requires cursor != 0
  {
    (cursor - 1 + k) % 65535 + 1
  }

  function Successor(id: u16): u16 {
    if id == U16_MAX then 1 else id + 1
  }

  ghost predicate SomeAdmissible(s: Session, pathEpoch: u64, keyEpoch: u32) {
    exists id: u16 :: Admissible(s, id, pathEpoch, keyEpoch)
  }

  /** `id` is the admissible identifier nearest to the cursor. */
  ghost predicate Nearest(s: Session, id: u16, pathEpoch: u64, keyEpoch: u32) {
    && Admissible(s, id, pathEpoch, keyEpoch)
    && forall other: u16 :: Admissible(s, other, pathEpoch, keyEpoch) ==>
         Distance(s.nextPathId, id) <= Distance(s.nextPathId, other)
  }

  lemma {:induction false} NearestExists(s: Session, pathEpoch: u64, keyEpoch: u32, id: u16)
    requires Admissible(s, id, pathEpoch, keyEpoch)
    ensures exists best: u16 :: Nearest(s, best, pathEpoch, keyEpoch)
    decreases Distance(s.nextPathId, id)
  {
    if !Nearest(s, id, pathEpoch, keyEpoch) {
      var closer: u16 :| Admissible(s, closer, pathEpoch, keyEpoch)
                         && Distance(s.nextPathId, closer) < Distance(s.nextPathId, id);
      NearestExists(s, pathEpoch, keyEpoch, closer);
    }
  }

  ghost function Allocate(s: Session, pathEpoch: u64, keyEpoch: u32): (r: Option<u16>)
    ensures r.None? <==> !SomeAdmissible(s, pathEpoch, keyEpoch)
    ensures r.Some? ==> Nearest(s, r.value, pathEpoch, keyEpoch)
  {
    if SomeAdmissible(s, pathEpoch, keyEpoch) then
      var seen: u16 :| Admissible(s, seen, pathEpoch, keyEpoch);
      NearestExists(s, pathEpoch, keyEpoch, seen);
      var id: u16 :| Nearest(s, id, pathEpoch, keyEpoch);
      Some(id)
    else None
  }

  predicate ConnectionBound(s: Session, connection: u64) {
    exists id :: id in s.paths && s.paths[id].binding.connectionId == connection
  }

  /** The guard that refuses a reservation before any identifier is searched for. */
  function ReserveGuard(s: Session, connection: u64, pathEpoch: u64, keyEpoch: u32, now: u64): Option<LifecycleError> {
    if now >= s.admission.expiresAtMs then Some(Expired)
    else if s.state != Active then Some(InvalidSessionState)
    else if pathEpoch == 0 then Some(InvalidPathEpoch)
    else if keyEpoch == 0 then Some(InvalidKeyEpoch)
    else if ConnectionBound(s, connection) then Some(ConnectionAlreadyBound)
    else if |s.paths| >= s.config.maximumPaths then Some(PathCapacity)
    else None
  }

  /** The state after `r` has been issued. */
  function Issue(s: Session, r: Reservation): Session {
    s.(nextPathId := Successor(r.pathId),
       history := s.history[r.pathId := Epochs(r.pathEpoch, r.keyEpoch)],
       paths := s.paths[r.pathId :=
         PathEntry(Binding(r.pathId, r.pathEpoch, r.keyEpoch, r.connectionId, Connecting), true)])
  }

  ghost function Reserve(s0: Session, connection: u64, pathEpoch: u64, keyEpoch: u32, now: u64)
    : (Session, Result<Reservation, LifecycleError>)
  {
    var s := Prune(s0, now);
    var guard := ReserveGuard(s, connection, pathEpoch, keyEpoch, now);
    if guard.Some? then (s, Err(guard.value))
    else
      match Allocate(s, pathEpoch, keyEpoch)
      case None => (s, Err(PathIdentifierExhausted))
      case Some(id) =>
        var r := Reservation(id, pathEpoch, keyEpoch, connection);
        (Issue(s, r), Ok(r))
  }

  /** `r` names a reservation that is still open. */
  predicate Holds(s: Session, r: Reservation) {
    && r.pathId in s.paths
    && s.paths[r.pathId].reserved
    && s.paths[r.pathId].binding.connectionId == r.connectionId
    && s.paths[r.pathId].binding.pathEpoch == r.pathEpoch
    && s.paths[r.pathId].binding.keyEpoch == r.keyEpoch
  }

  function Rebind(s: Session, id: u16, state: PathState): Session
    requires id in s.paths
  {
    s.(paths := s.paths[id := PathEntry(s.paths[id].binding.(state := state), false)])
  }

  function Commit(s: Session, r: Reservation): (Session, Result<Binding, LifecycleError>) {
    if !Holds(s, r) then (s, Err(UnknownReservation))
    else var t := Rebind(s, r.pathId, Attached); (t, Ok(t.paths[r.pathId].binding))
  }

  function Abort(s: Session, r: Reservation): (Session, bool) {
    if Holds(s, r) then (s.(paths := s.paths - {r.pathId}), true) else (s, false)
  }

  function Later(a: nat, b: nat): nat {
    if a < b then b else a
  }

  function Raised(history: map<u16, Epochs>, id: u16, pathEpoch: u64, keyEpoch: u32): Epochs {
    if id in history then
      Epochs(Later(history[id].pathEpoch, pathEpoch), Later(history[id].keyEpoch, keyEpoch))
    else Epochs(pathEpoch, keyEpoch)
  }

  function Quarantined(s: Session, id: u16, pathEpoch: u64, keyEpoch: u32, now: u64): Session {
    s.(history := s.history[id := Raised(s.history, id, pathEpoch, keyEpoch)],
       tombs := Entomb(s.tombs, s.config.maximumPathTombstones, id, Saturate(now + s.config.pathTombstoneTtlMs)))
  }

  predicate Detachable(s: Session, id: u16, connection: u64, pathEpoch: u64) {
    && id in s.paths
    && !s.paths[id].reserved
    && s.paths[id].binding.connectionId == connection
    && s.paths[id].binding.pathEpoch == pathEpoch
  }

  function Detach(s: Session, id: u16, connection: u64, pathEpoch: u64, now: u64): (Session, bool) {
    if !Detachable(s, id, connection, pathEpoch) then (s, false)
    else
      var b := s.paths[id].binding;
      var t := Quarantined(s, id, b.pathEpoch, b.keyEpoch, now);
      (t.(paths := t.paths - {id}), true)
  }

  predicate ValidPathTransition(current: PathState, next: PathState) {
    match current
    case Connecting => next.Attached? || next.Failed?
    case Attached => next.Healthy? || next.Failed?
    case Healthy => next.Suspect? || next.Failed?
    case Suspect => next.Healthy? || next.Failed?
    case Failed => next.Reconnecting?
    case Reconnecting => next.Connecting? || next.Failed?
  }

  function SetPathState(s: Session, id: u16, next: PathState): (Session, Result<Binding, LifecycleError>) {
    if id !in s.paths then (s, Err(UnknownReservation))
    else if s.paths[id].reserved || !ValidPathTransition(s.paths[id].binding.state, next) then
      (s, Err(InvalidPathState))
    else var t := Rebind(s, id, next); (t, Ok(t.paths[id].binding))
  }

  function Activate(s: Session, now: u64): (Session, Result<(), LifecycleError>) {
    if now >= s.admission.expiresAtMs then (s, Err(Expired))
    else if s.state != Pending then (s, Err(InvalidSessionState))
    else (s.(state := Active), Ok(()))
  }

  function BeginDraining(s: Session): (Session, Result<(), LifecycleError>) {
    if s.state != Active then (s, Err(InvalidSessionState)) else (s.(state := Draining), Ok(()))
  }

  function Close(s: Session): (Session, bool) {
    if s.state == Closed then (s, false) else (s.(state := Closed, paths := map[]), true)
  }

  // ---------------------------------------------------------------------
  // The invariant of every reachable session
  // ---------------------------------------------------------------------

  ghost predicate PathsWellBound(s: Session) {
    && (forall id :: id in s.paths ==>
          && id != 0
          && s.paths[id].binding.pathId == id
          && id in s.history
          && s.history[id] == Epochs(s.paths[id].binding.pathEpoch, s.paths[id].binding.keyEpoch)
          && (s.paths[id].reserved ==> s.paths[id].binding.state == Connecting))
    && (forall a, b ::
          a in s.paths && b in s.paths && s.paths[a].binding.connectionId == s.paths[b].binding.connectionId ==> a == b)
    && (s.paths != map[] ==> s.state == Active || s.state == Draining)
  }

  ghost predicate Bounded(s: Session) {
    && |s.paths| <= s.config.maximumPaths
    && |s.history| <= s.config.maximumPathEpochHistory
    && |s.tombs.live| <= s.config.maximumPathTombstones
  }

  ghost predicate Valid(s: Session) {
    && ConfigAccepted(s.config, s.admission)
    && s.nextPathId != 0
    && 0 !in s.history
    && PathsWellBound(s)
    && Bounded(s)
    && QueueListsMap(s.tombs)
    && s.paths.Keys !! s.tombs.live.Keys
    && s.tombs.live.Keys <= s.history.Keys
  }

  // ---------------------------------------------------------------------
  // The object
  // ---------------------------------------------------------------------

  class V2Session {
    const admission: Admission
    const config: Config
    var state: SessionState
    var paths: map<u16, PathEntry>
    var nextPathId: u16
    var pathEpochHistory: map<u16, Epochs>
    var pathTombstones: map<u16, u64>
    var tombstoneOrder: seq<u16>
    var tombstonesExpired: u64
    var tombstonesCapacityEvicted: u64

    ghost function Tombstones(): Tombs
      reads this
    {
      Tombs(pathTombstones, tombstoneOrder, tombstonesExpired, tombstonesCapacityEvicted)
    }

    ghost function View(): Session
      reads this
    {
      Session(admission, config, state, paths, nextPathId, pathEpochHistory, Tombstones())
    }

    constructor Admit(config: Config, admission: Admission, ghost now: u64)
      requires New(config, admission, now).Ok?
      ensures View() == New(config, admission, now).value
    {
      this.admission := admission;
      this.config := config;
      state := Pending;
      paths := map[];
      nextPathId := 1;
      pathEpochHistory := map[];
      pathTombstones := map[];
      tombstoneOrder := [];
      tombstonesExpired := 0;
      tombstonesCapacityEvicted := 0;
    }

    static method Create(config: Config, admission: Admission, now: u64)
      returns (r: Result<V2Session, LifecycleError>)
      ensures r.Err? <==> New(config, admission, now).Err?
      ensures r.Err? ==> r.error == New(config, admission, now).error
      ensures r != Err(InvalidConfiguration) <==>
                && 1 <= config.maximumPaths <= config.maximumPathEpochHistory <= 65535
                && 1 <= config.maximumPathTombstones && 1 <= config.pathTombstoneTtlMs && 1 <= admission.expiresAtMs
      ensures r.Ok? <==> r != Err(InvalidConfiguration) && now < admission.expiresAtMs
      ensures r.Ok? ==> fresh(r.value) && r.value.View() == New(config, admission, now).value && Valid(r.value.View())
    {
      if config.maximumPaths == 0 || config.maximumPaths > U16_MAX
         || config.maximumPathEpochHistory < config.maximumPaths
         || config.maximumPathEpochHistory > U16_MAX
         || config.maximumPathTombstones == 0 || config.pathTombstoneTtlMs == 0
         || admission.expiresAtMs == 0 {
        return Err(InvalidConfiguration);
      }
      if now >= admission.expiresAtMs {
        return Err(Expired);
      }
      var session := new V2Session.Admit(config, admission, now);
      r := Ok(session);
    }

    method PruneTombstones(now: u64)
      modifies `pathTombstones, `tombstoneOrder, `tombstonesExpired
      ensures View() == Prune(old(View()), now)
    {
      while tombstoneOrder != []
        invariant PruneTombs(Tombstones(), now) == PruneTombs(old(Tombstones()), now)
        decreases |tombstoneOrder|
      {
        var id := tombstoneOrder[0];
        if id !in pathTombstones {
          tombstoneOrder := tombstoneOrder[1..];
          continue;
        }
        if pathTombstones[id] > now {
          break;
        }
        assert PruneTombs(Tombstones(), now) == PruneTombs(ExpireFront(Tombstones()), now);
        tombstoneOrder := tombstoneOrder[1..];
        pathTombstones := pathTombstones - {id};
        tombstonesExpired := Saturate(tombstonesExpired + 1);
      }
    }

    /** The wrapping search: 65535 probes starting at the cursor. */
    method AllocatePathId(pathEpoch: u64, keyEpoch: u32) returns (r: Option<u16>)
      requires nextPathId != 0 && 0 !in pathEpochHistory
      modifies `nextPathId
      ensures r == Allocate(old(View()), pathEpoch, keyEpoch)
      ensures View() == old(View()).(nextPathId := if r.Some? then Successor(r.value) else old(nextPathId))
    {
      ghost var start := View();
      for probe := 0 to 65535
        invariant nextPathId == Advance(start.nextPathId, probe)
        invariant forall id: u16 :: Admissible(start, id, pathEpoch, keyEpoch) ==>
                    probe <= Distance(start.nextPathId, id)
      {
        var id := nextPathId;
        nextPathId := if nextPathId == U16_MAX then 1 else nextPathId + 1;
        DistanceInvertsAdvance(start.nextPathId, probe);
        AdvanceSteps(start.nextPathId, probe);
        assert forall other: u16 :: other != 0 && Distance(start.nextPathId, other) == probe ==> other == id by {
          forall other: u16 | other != 0 && Distance(start.nextPathId, other) == probe ensures other == id {
            AdvanceInvertsDistance(start.nextPathId, other);
          }
        }
        if id in paths || id in pathTombstones {
          continue;
        }
        if id in pathEpochHistory {
          if pathEpoch <= pathEpochHistory[id].pathEpoch || keyEpoch <= pathEpochHistory[id].keyEpoch {
            continue;
          }
          NearestIsUnique(start, id, pathEpoch, keyEpoch);
          return Some(id);
        }
        if |pathEpochHistory| < config.maximumPathEpochHistory {
          NearestIsUnique(start, id, pathEpoch, keyEpoch);
          return Some(id);
        }
      }
      r := None;
    }

    /** The checks before an identifier is searched for, in order. */
    method RefuseAttach(connection: u64, pathEpoch: u64, keyEpoch: u32, now: u64)
      returns (refusal: Option<LifecycleError>)
      ensures refusal == ReserveGuard(View(), connection, pathEpoch, keyEpoch, now)
    {
      if now >= admission.expiresAtMs {
        return Some(Expired);
      }
      if state != Active {
        return Some(InvalidSessionState);
      }
      if pathEpoch == 0 {
        return Some(InvalidPathEpoch);
      }
      if keyEpoch == 0 {
        return Some(InvalidKeyEpoch);
      }
      if exists id :: id in paths && paths[id].binding.connectionId == connection {
        return Some(ConnectionAlreadyBound);
      }
      if |paths| >= config.maximumPaths {
        return Some(PathCapacity);
      }
      refusal := None;
    }

    method ReserveAttach(connection: u64, pathEpoch: u64, keyEpoch: u32, now: u64)
      returns (r: Result<Reservation, LifecycleError>)
      requires Valid(View())
      modifies this
      ensures (View(), r) == Reserve(old(View()), connection, pathEpoch, keyEpoch, now)
      ensures Valid(View())
    {
      PruneKeepsValid(View(), now);
      PruneTombstones(now);
      ghost var pruned := View();
      ReserveKeepsValid(old(View()), connection, pathEpoch, keyEpoch, now);
      var refusal := RefuseAttach(connection, pathEpoch, keyEpoch, now);
      if refusal.Some? {
        return Err(refusal.value);
      }
      var found := AllocatePathId(pathEpoch, keyEpoch);
      if found.None? {
        return Err(PathIdentifierExhausted);
      }
      var id := found.value;
      pathEpochHistory := pathEpochHistory[id := Epochs(pathEpoch, keyEpoch)];
      paths := paths[id := PathEntry(Binding(id, pathEpoch, keyEpoch, connection, Connecting), true)];
      r := Ok(Reservation(id, pathEpoch, keyEpoch, connection));
    }

    method CommitAttach(r: Reservation) returns (b: Result<Binding, LifecycleError>)
      requires Valid(View())
      modifies this
      ensures (View(), b) == Commit(old(View()), r)
      ensures Valid(View())
    {
      if r.pathId !in paths {
        return Err(UnknownReservation);
      }
      var path := paths[r.pathId];
      if !path.reserved || path.binding.connectionId != r.connectionId
         || path.binding.pathEpoch != r.pathEpoch || path.binding.keyEpoch != r.keyEpoch {
        return Err(UnknownReservation);
      }
      RebindKeepsValid(View(), r.pathId, Attached);
      var binding := path.binding.(state := Attached);
      paths := paths[r.pathId := PathEntry(binding, false)];
      b := Ok(binding);
    }

    method AbortAttach(r: Reservation) returns (aborted: bool)
      requires Valid(View())
      modifies this
      ensures (View(), aborted) == Abort(old(View()), r)
      ensures Valid(View())
    {
      aborted := r.pathId in paths && paths[r.pathId].reserved
                 && paths[r.pathId].binding.connectionId == r.connectionId
                 && paths[r.pathId].binding.pathEpoch == r.pathEpoch
                 && paths[r.pathId].binding.keyEpoch == r.keyEpoch;
      if aborted {
        RemovePathKeepsValid(View(), r.pathId);
        paths := paths - {r.pathId};
      }
    }

    method MakeRoom()
      modifies `pathTombstones, `tombstoneOrder, `tombstonesCapacityEvicted
      ensures Tombstones() == Evict(old(Tombstones()), config.maximumPathTombstones)
    {
      var capacity := config.maximumPathTombstones;
      ghost var start := Tombstones();
      while |pathTombstones| >= capacity && tombstoneOrder != []
        invariant Evict(Tombstones(), capacity) == Evict(start, capacity)
        decreases |tombstoneOrder|
      {
        ghost var before := Tombstones();
        var oldest := tombstoneOrder[0];
        tombstoneOrder := tombstoneOrder[1..];
        if oldest in pathTombstones {
          pathTombstones := pathTombstones - {oldest};
          tombstonesCapacityEvicted := Saturate(tombstonesCapacityEvicted + 1);
        }
        assert Tombstones() == EvictFront(before);
      }
    }

    method InsertTombstone(id: u16, pathEpoch: u64, keyEpoch: u32, now: u64)
      modifies `pathEpochHistory, `pathTombstones, `tombstoneOrder, `tombstonesCapacityEvicted
      ensures View() == Quarantined(old(View()), id, pathEpoch, keyEpoch, now)
    {
      MakeRoom();
      pathEpochHistory := pathEpochHistory[id := Raised(pathEpochHistory, id, pathEpoch, keyEpoch)];
      pathTombstones := pathTombstones[id := Saturate(now + config.pathTombstoneTtlMs)];
      tombstoneOrder := tombstoneOrder + [id];
    }

    method DetachPath(id: u16, connection: u64, pathEpoch: u64, now: u64) returns (detached: bool)
      requires Valid(View())
      modifies this
      ensures (View(), detached) == Detach(old(View()), id, connection, pathEpoch, now)
      ensures Valid(View())
    {
      if id !in paths {
        return false;
      }
      var path := paths[id];
      if path.reserved || path.binding.connectionId != connection || path.binding.pathEpoch != pathEpoch {
        return false;
      }
      DetachKeepsValid(View(), id, connection, pathEpoch, now);
      InsertTombstone(id, path.binding.pathEpoch, path.binding.keyEpoch, now);
      paths := paths - {id};
      detached := true;
    }

    method ChangePathState(id: u16, next: PathState) returns (b: Result<Binding, LifecycleError>)
      requires Valid(View())
      modifies this
      ensures (View(), b) == SetPathState(old(View()), id, next)
      ensures Valid(View())
    {
      if id !in paths {
        return Err(UnknownReservation);
      }
      var path := paths[id];
      if path.reserved || !ValidPathTransition(path.binding.state, next) {
        return Err(InvalidPathState);
      }
      RebindKeepsValid(View(), id, next);
      var binding := path.binding.(state := next);
      paths := paths[id := PathEntry(binding, path.reserved)];
      b := Ok(binding);
    }

    method ActivateSession(now: u64) returns (r: Result<(), LifecycleError>)
      requires Valid(View())
      modifies this
      ensures (View(), r) == Activate(old(View()), now)
      ensures Valid(View())
    {
      if now >= admission.expiresAtMs {
        return Err(Expired);
      }
      if state != Pending {
        return Err(InvalidSessionState);
      }
      state := Active;
      r := Ok(());
    }

    method DrainSession() returns (r: Result<(), LifecycleError>)
      requires Valid(View())
      modifies this
      ensures (View(), r) == BeginDraining(old(View()))
      ensures Valid(View())
    {
      if state != Active {
        return Err(InvalidSessionState);
      }
      state := Draining;
      r := Ok(());
    }

    method CloseSession() returns (closed: bool)
      requires Valid(View())
      modifies this
      ensures (View(), closed) == Close(old(View()))
      ensures Valid(View())
    {
      if state == Closed {
        return false;
      }
      state := Closed;
      paths := map[];
      closed := true;
    }
  }

  // ---------------------------------------------------------------------
  // The identifier ring
  // ---------------------------------------------------------------------

  lemma AdvanceInvertsDistance(cursor: u16, id: u16)
    requires cursor != 0 && id != 0
    ensures Advance(cursor, Distance(cursor, id)) == id
  {
  }

  lemma DistanceInvertsAdvance(cursor: u16, k: nat)
    requires cursor != 0 && k < 65535
    ensures Distance(cursor, Advance(cursor, k)) == k
  {
  }

  lemma AdvanceSteps(cursor: u16, k: nat)
    requires cursor != 0 && k < 65535
    ensures Advance(cursor, 0) == cursor == Advance(cursor, 65535)
    ensures Successor(Advance(cursor, k)) == Advance(cursor, k + 1)
  {
  }

  lemma NearestIsUnique(s: Session, id: u16, pathEpoch: u64, keyEpoch: u32)
    requires s.nextPathId != 0
    requires Nearest(s, id, pathEpoch, keyEpoch)
    ensures Allocate(s, pathEpoch, keyEpoch) == Some(id)
  {
    var other := Allocate(s, pathEpoch, keyEpoch).value;
    assert Distance(s.nextPathId, other) == Distance(s.nextPathId, id);
    AdvanceInvertsDistance(s.nextPathId, other);
    AdvanceInvertsDistance(s.nextPathId, id);
  }

  /** The 65535 probes visit every identifier 1..65535 exactly once and never 0. */
  lemma ScanVisitsEachIdOnce(cursor: u16)
    requires cursor != 0
    ensures forall k :: 0 <= k < 65535 ==> Advance(cursor, k) != 0
    ensures forall j, k :: 0 <= j < k < 65535 ==> Advance(cursor, j) != Advance(cursor, k)
    ensures forall id: u16 :: id != 0 ==>
              Distance(cursor, id) < 65535 && Advance(cursor, Distance(cursor, id)) == id
    ensures Advance(cursor, 65535) == cursor
  {
    forall j, k | 0 <= j < k < 65535 ensures Advance(cursor, j) != Advance(cursor, k) {
      DistanceInvertsAdvance(cursor, j);
      DistanceInvertsAdvance(cursor, k);
    }
    forall id: u16 | id != 0
      ensures Distance(cursor, id) < 65535 && Advance(cursor, Distance(cursor, id)) == id
    {
      AdvanceInvertsDistance(cursor, id);
    }
  }

  ghost function IdsUpTo(n: nat): (ids: set<u16>)
    requires n <= U16_MAX
    ensures forall id: u16 :: id in ids <==> 1 <= id <= n
    ensures |ids| == n
  {
    if n == 0 then {} else IdsUpTo(n - 1) + {n}
  }

  /** Pigeonhole: a history with room left always leaves a never-issued identifier. */
  lemma RoomLeavesAnId(s: Session, pathEpoch: u64, keyEpoch: u32)
    requires Valid(s)
    requires |s.history| < s.config.maximumPathEpochHistory
    ensures SomeAdmissible(s, pathEpoch, keyEpoch)
  {
    if IdsUpTo(U16_MAX) <= s.history.Keys {
      SubsetCount(IdsUpTo(U16_MAX), s.history.Keys);
      assert false;
    }
    var id: u16 :| id in IdsUpTo(U16_MAX) && id !in s.history.Keys;
    assert Admissible(s, id, pathEpoch, keyEpoch);
  }

  /** The history is full, and each identifier in it is bound, quarantined, or not raised by these epochs. */
  ghost predicate UsedUp(s: Session, pathEpoch: u64, keyEpoch: u32) {
    && |s.history| == s.config.maximumPathEpochHistory
    && forall id :: id in s.history ==>
         || id in s.paths || id in s.tombs.live
         || pathEpoch <= s.history[id].pathEpoch || keyEpoch <= s.history[id].keyEpoch
  }

  lemma NoneAdmissibleExactly(s: Session, pathEpoch: u64, keyEpoch: u32)
    requires Valid(s)
    ensures !SomeAdmissible(s, pathEpoch, keyEpoch) <==> UsedUp(s, pathEpoch, keyEpoch)
  {
    if |s.history| < s.config.maximumPathEpochHistory {
      RoomLeavesAnId(s, pathEpoch, keyEpoch);
    } else if SomeAdmissible(s, pathEpoch, keyEpoch) {
      var id: u16 :| Admissible(s, id, pathEpoch, keyEpoch);
      assert id in s.history;
    } else {
      forall id | id in s.history
        ensures id in s.paths || id in s.tombs.live
                || pathEpoch <= s.history[id].pathEpoch || keyEpoch <= s.history[id].keyEpoch
      {
        assert !Admissible(s, id, pathEpoch, keyEpoch);
      }
    }
  }

  /**
    Reserving reports exhaustion exactly when every other guard passes and the
    identifiers are used up for these epochs. The cursor is then where it was.
  */
  lemma ExhaustedExactly(s0: Session, connection: u64, pathEpoch: u64, keyEpoch: u32, now: u64)
    requires Valid(s0)
    ensures var s := Prune(s0, now);
            var (t, r) := Reserve(s0, connection, pathEpoch, keyEpoch, now);
            && (r == Err(PathIdentifierExhausted) ==> t == s && t.nextPathId == s0.nextPathId)
            && (r == Err(PathIdentifierExhausted) <==>
                  ReserveGuard(s, connection, pathEpoch, keyEpoch, now) == None && UsedUp(s, pathEpoch, keyEpoch))
  {
    var s := Prune(s0, now);
    PruneKeepsValid(s0, now);
    NoneAdmissibleExactly(s, pathEpoch, keyEpoch);
    ReserveExhausts(s0, s, connection, pathEpoch, keyEpoch, now);
  }

  lemma ReserveExhausts(s0: Session, s: Session, connection: u64, pathEpoch: u64, keyEpoch: u32, now: u64)
    requires s == Prune(s0, now)
    ensures var (t, r) := Reserve(s0, connection, pathEpoch, keyEpoch, now);
            && (r == Err(PathIdentifierExhausted) ==> t == s)
            && (r == Err(PathIdentifierExhausted) <==>
                  && ReserveGuard(s, connection, pathEpoch, keyEpoch, now) == None
                  && !SomeAdmissible(s, pathEpoch, keyEpoch))
  {
  }

  // ---------------------------------------------------------------------
  // What each operation answers
  // ---------------------------------------------------------------------

  /** Some bound or reserved path already has this connection. */
  ghost predicate Taken(s: Session, connection: u64) {
    exists id :: id in s.paths && s.paths[id].binding.connectionId == connection
  }

  /**
    A reservation is granted exactly when every condition holds, and is refused with
    the first one that does not.
  */
  lemma ReserveAnswers(s0: Session, connection: u64, pathEpoch: u64, keyEpoch: u32, now: u64)
    requires Valid(s0)
    ensures var r := Reserve(s0, connection, pathEpoch, keyEpoch, now).1;
            var live := now < s0.admission.expiresAtMs;
            var active := live && s0.state == Active;
            var numbered := active && pathEpoch != 0 && keyEpoch != 0;
            var free := numbered && !Taken(s0, connection);
            var room := free && |s0.paths| < s0.config.maximumPaths;
            var granted := room && !UsedUp(Prune(s0, now), pathEpoch, keyEpoch);
            && (r.Ok? <==> granted)
            && (r == Err(Expired) <==> !live)
            && (r == Err(InvalidSessionState) <==> live && !active)
            && (r == Err(InvalidPathEpoch) <==> active && pathEpoch == 0)
            && (r == Err(InvalidKeyEpoch) <==> active && pathEpoch != 0 && keyEpoch == 0)
            && (r == Err(ConnectionAlreadyBound) <==> numbered && !free)
            && (r == Err(PathCapacity) <==> free && !room)
            && (r == Err(PathIdentifierExhausted) <==> room && !granted)
  {
    PruneKeepsValid(s0, now);
    NoneAdmissibleExactly(Prune(s0, now), pathEpoch, keyEpoch);
    assert ConnectionBound(Prune(s0, now), connection) <==> Taken(s0, connection);
  }

  /** A grant reserves one identifier, unbound and unquarantined, and changes nothing else but the cursor. */
  lemma ReserveGrants(s0: Session, connection: u64, pathEpoch: u64, keyEpoch: u32, now: u64)
    requires Reserve(s0, connection, pathEpoch, keyEpoch, now).1.Ok?
    ensures var (t, r) := Reserve(s0, connection, pathEpoch, keyEpoch, now);
            var id := r.value.pathId;
            && r.value == Reservation(id, pathEpoch, keyEpoch, connection)
            && 0 < id && id !in s0.paths && id !in Prune(s0, now).tombs.live
            && t.paths == s0.paths[id := PathEntry(Binding(id, pathEpoch, keyEpoch, connection, Connecting), true)]
            && t.history == s0.history[id := Epochs(pathEpoch, keyEpoch)]
            && t.nextPathId == (if id == 65535 then 1 else id + 1)
            && (t.admission, t.config, t.state) == (s0.admission, s0.config, s0.state)
  {
  }

  /** The entry an open reservation leaves in the path table. */
  function Opened(r: Reservation): PathEntry {
    PathEntry(Binding(r.pathId, r.pathEpoch, r.keyEpoch, r.connectionId, Connecting), true)
  }

  /** A commit attaches exactly the path that stands reserved as named. */
  lemma CommitAnswers(s: Session, r: Reservation)
    requires PathsWellBound(s)
    ensures var (t, b) := Commit(s, r);
            var bound := Binding(r.pathId, r.pathEpoch, r.keyEpoch, r.connectionId, Attached);
            if r.pathId in s.paths && s.paths[r.pathId] == Opened(r)
            then b == Ok(bound) && t == s.(paths := s.paths[r.pathId := PathEntry(bound, false)])
            else b == Err(UnknownReservation) && t == s
  {
  }

  /** An abort removes exactly the path that stands reserved as named, and its connection is free again. */
  lemma AbortAnswers(s: Session, r: Reservation)
    requires PathsWellBound(s)
    ensures var (t, yes) := Abort(s, r);
            && (yes <==> r.pathId in s.paths && s.paths[r.pathId] == Opened(r))
            && (yes ==> r.pathId !in t.paths && !Taken(t, r.connectionId))
            && t == s.(paths := if yes then s.paths - {r.pathId} else s.paths)
  {
  }

  /** After an abort the connection may reserve again: only what would refuse any other connection refuses it. */
  lemma AbortedMayReserveAgain(s: Session, r: Reservation, pathEpoch: u64, keyEpoch: u32, now: u64)
    requires Valid(s) && Abort(s, r).1
    ensures var again := Reserve(Abort(s, r).0, r.connectionId, pathEpoch, keyEpoch, now).1;
            again != Err(ConnectionAlreadyBound) && again != Err(PathCapacity)
  {
    AbortAnswers(s, r);
    AbortKeepsValid(s, r);
    assert (s.paths - {r.pathId}).Keys == s.paths.Keys - {r.pathId};
    ReserveAnswers(Abort(s, r).0, r.connectionId, pathEpoch, keyEpoch, now);
  }

  /**
    A detach takes exactly the attached path of that connection and path epoch: it is
    gone, its connection is free, and its identifier is quarantined for the whole
    time to live.
  */
  lemma DetachAnswers(s: Session, id: u16, connection: u64, pathEpoch: u64, now: u64)
    requires PathsWellBound(s)
    ensures var (t, yes) := Detach(s, id, connection, pathEpoch, now);
            && (yes <==>
                  && id in s.paths && !s.paths[id].reserved
                  && s.paths[id].binding.connectionId == connection && s.paths[id].binding.pathEpoch == pathEpoch)
            && (yes ==> !Taken(t, connection) && id in t.tombs.live
                        && t.tombs.live[id] == Saturate(now + s.config.pathTombstoneTtlMs))
            && t.(tombs := s.tombs) == s.(paths := if yes then s.paths - {id} else s.paths)
            && (!yes ==> t == s)
  {
    if Detach(s, id, connection, pathEpoch, now).1 {
      DetachKeepsHistory(s, id, connection, pathEpoch, now);
    }
  }

  /** The moves a caller may ask of a path, edge by edge. */
  ghost predicate Edge(a: PathState, b: PathState) {
    (a, b) in {(Connecting, Attached), (Connecting, Failed), (Attached, Healthy), (Attached, Failed),
               (Healthy, Suspect), (Healthy, Failed), (Suspect, Healthy), (Suspect, Failed),
               (Failed, Reconnecting), (Reconnecting, Connecting), (Reconnecting, Failed)}
  }

  /** A path is moved exactly along an edge and never while it is only reserved. */
  lemma SetPathStateAnswers(s: Session, id: u16, next: PathState)
    ensures var (t, b) := SetPathState(s, id, next);
            if id !in s.paths then (t, b) == (s, Err(UnknownReservation))
            else if s.paths[id].reserved || !Edge(s.paths[id].binding.state, next) then
              (t, b) == (s, Err(InvalidPathState))
            else
              && b == Ok(s.paths[id].binding.(state := next))
              && t == s.(paths := s.paths[id := PathEntry(b.value, false)])
  {
    assert id in s.paths ==>
      (ValidPathTransition(s.paths[id].binding.state, next) <==> Edge(s.paths[id].binding.state, next));
  }

  // ---------------------------------------------------------------------
  // Every operation keeps the invariant
  // ---------------------------------------------------------------------

  lemma PruneKeepsValid(s: Session, now: u64)
    requires Valid(s)
    ensures Valid(Prune(s, now))
  {
    PruneKeepsAgreement(s.tombs, now);
  }

  lemma IssueKeepsPathsWellBound(s: Session, r: Reservation)
    requires PathsWellBound(s) && s.state == Active
    requires r.pathId != 0 && r.pathId !in s.paths
    requires !ConnectionBound(s, r.connectionId)
    ensures PathsWellBound(Issue(s, r))
  {
    var t := Issue(s, r);
    forall a, b | a in t.paths && b in t.paths
                  && t.paths[a].binding.connectionId == t.paths[b].binding.connectionId
      ensures a == b
    {
      assert a != r.pathId ==> a in s.paths && t.paths[a] == s.paths[a];
      assert b != r.pathId ==> b in s.paths && t.paths[b] == s.paths[b];
    }
  }

  lemma IssueKeepsBounded(s: Session, r: Reservation)
    requires Bounded(s) && |s.paths| < s.config.maximumPaths
    requires Admissible(s, r.pathId, r.pathEpoch, r.keyEpoch)
    ensures Bounded(Issue(s, r))
  {
    var t := Issue(s, r);
    assert t.paths.Keys == s.paths.Keys + {r.pathId};
    assert t.history.Keys == s.history.Keys + {r.pathId};
    if r.pathId in s.history {
      assert t.history.Keys == s.history.Keys;
    }
  }

  lemma IssueKeepsValid(s: Session, r: Reservation)
    requires Valid(s) && s.state == Active
    requires Admissible(s, r.pathId, r.pathEpoch, r.keyEpoch)
    requires !ConnectionBound(s, r.connectionId) && |s.paths| < s.config.maximumPaths
    ensures Valid(Issue(s, r))
  {
    IssueKeepsPathsWellBound(s, r);
    IssueKeepsBounded(s, r);
  }

  lemma ReserveKeepsValid(s0: Session, connection: u64, pathEpoch: u64, keyEpoch: u32, now: u64)
    requires Valid(s0)
    ensures Valid(Reserve(s0, connection, pathEpoch, keyEpoch, now).0)
  {
    PruneKeepsValid(s0, now);
    var r := Reserve(s0, connection, pathEpoch, keyEpoch, now).1;
    if r.Ok? {
      IssueKeepsValid(Prune(s0, now), r.value);
    }
  }

  lemma RebindKeepsPathsWellBound(s: Session, id: u16, state: PathState)
    requires PathsWellBound(s) && id in s.paths
    ensures PathsWellBound(Rebind(s, id, state))
  {
  }

  lemma RebindKeepsValid(s: Session, id: u16, state: PathState)
    requires Valid(s) && id in s.paths
    ensures Valid(Rebind(s, id, state))
  {
    RebindKeepsPathsWellBound(s, id, state);
    assert Rebind(s, id, state).paths.Keys == s.paths.Keys;
  }

  lemma RemovePathKeepsValid(s: Session, id: u16)
    requires Valid(s) && id in s.paths
    ensures Valid(s.(paths := s.paths - {id}))
  {
    assert (s.paths - {id}).Keys == s.paths.Keys - {id};
  }

  lemma CommitKeepsValid(s: Session, r: Reservation)
    requires Valid(s)
    ensures Valid(Commit(s, r).0)
  {
    if Holds(s, r) {
      RebindKeepsValid(s, r.pathId, Attached);
    }
  }

  lemma AbortKeepsValid(s: Session, r: Reservation)
    requires Valid(s)
    ensures Valid(Abort(s, r).0)
  {
    if Holds(s, r) {
      RemovePathKeepsValid(s, r.pathId);
    }
  }

  lemma SetPathStateKeepsValid(s: Session, id: u16, next: PathState)
    requires Valid(s)
    ensures Valid(SetPathState(s, id, next).0)
  {
    if SetPathState(s, id, next).1.Ok? {
      RebindKeepsValid(s, id, next);
    }
  }

  lemma DetachKeepsHistory(s: Session, id: u16, connection: u64, pathEpoch: u64, now: u64)
    requires PathsWellBound(s) && Detachable(s, id, connection, pathEpoch)
    ensures Detach(s, id, connection, pathEpoch, now).0.history == s.history
  {
    assert s.history[id] == Epochs(s.paths[id].binding.pathEpoch, s.paths[id].binding.keyEpoch);
  }

  lemma EntombKeepsValid(s: Session, id: u16, expiresAt: u64)
    requires Valid(s) && id in s.history && id !in s.paths && id !in s.tombs.live
    ensures Valid(s.(tombs := Entomb(s.tombs, s.config.maximumPathTombstones, id, expiresAt)))
  {
    EntombKeepsAgreement(s.tombs, s.config.maximumPathTombstones, id, expiresAt);
  }

  lemma DetachIs(s: Session, id: u16, connection: u64, pathEpoch: u64, now: u64)
    requires PathsWellBound(s) && Detachable(s, id, connection, pathEpoch)
    ensures Detach(s, id, connection, pathEpoch, now).0
            == s.(paths := s.paths - {id},
                  tombs := Entomb(s.tombs, s.config.maximumPathTombstones, id, ExpiresAt(s, now)))
  {
    DetachKeepsHistory(s, id, connection, pathEpoch, now);
  }

  lemma DetachKeepsValid(s: Session, id: u16, connection: u64, pathEpoch: u64, now: u64)
    requires Valid(s) && Detachable(s, id, connection, pathEpoch)
    ensures Valid(Detach(s, id, connection, pathEpoch, now).0)
  {
    DetachIs(s, id, connection, pathEpoch, now);
    RemovePathKeepsValid(s, id);
    EntombKeepsValid(s.(paths := s.paths - {id}), id, ExpiresAt(s, now));
  }

  // ---------------------------------------------------------------------
  // Whole runs
  // ---------------------------------------------------------------------

  datatype Op =
    | DoActivate(now: u64)
    | DoDrain
    | DoClose
    | DoReserve(connection: u64, pathEpoch: u64, keyEpoch: u32, now: u64)
    | DoCommit(r: Reservation)
    | DoAbort(r: Reservation)
    | DoDetach(id: u16, connection: u64, pathEpoch: u64, now: u64)
    | DoSetPathState(id: u16, next: PathState)
    | DoPrune(now: u64)

  datatype Outcome = Done | Issued(r: Reservation) | Bound(b: Binding) | Answer(yes: bool) | Refused(e: LifecycleError)

  ghost function Step(s: Session, op: Op): (Session, Outcome) {
    match op
    case DoActivate(now) =>
      var (t, r) := Activate(s, now);
      (t, if r.Ok? then Done else Refused(r.error))
    case DoDrain =>
      var (t, r) := BeginDraining(s);
      (t, if r.Ok? then Done else Refused(r.error))
    case DoClose => var (t, yes) := Close(s); (t, Answer(yes))
    case DoReserve(connection, pathEpoch, keyEpoch, now) =>
      var (t, r) := Reserve(s, connection, pathEpoch, keyEpoch, now);
      (t, if r.Ok? then Issued(r.value) else Refused(r.error))
    case DoCommit(r) =>
      var (t, b) := Commit(s, r);
      (t, if b.Ok? then Bound(b.value) else Refused(b.error))
    case DoAbort(r) => var (t, yes) := Abort(s, r); (t, Answer(yes))
    case DoDetach(id, connection, pathEpoch, now) =>
      var (t, yes) := Detach(s, id, connection, pathEpoch, now); (t, Answer(yes))
    case DoSetPathState(id, next) =>
      var (t, b) := SetPathState(s, id, next);
      (t, if b.Ok? then Bound(b.value) else Refused(b.error))
    case DoPrune(now) => (Prune(s, now), Done)
  }

  lemma ActivateKeepsValid(s: Session, now: u64)
    requires Valid(s)
    ensures Valid(Activate(s, now).0)
  {
  }

  lemma DrainKeepsValid(s: Session)
    requires Valid(s)
    ensures Valid(BeginDraining(s).0)
  {
  }

  lemma CloseKeepsValid(s: Session)
    requires Valid(s)
    ensures Valid(Close(s).0)
  {
  }

  lemma LifecycleStepKeepsValid(s: Session, op: Op)
    requires Valid(s) && (op.DoActivate? || op.DoDrain? || op.DoClose? || op.DoPrune?)
    ensures Valid(Step(s, op).0)
  {
    match op
    case DoActivate(now) => ActivateKeepsValid(s, now);
    case DoDrain => DrainKeepsValid(s);
    case DoClose => CloseKeepsValid(s);
    case DoPrune(now) => PruneKeepsValid(s, now);
  }

  lemma AttachStepKeepsValid(s: Session, op: Op)
    requires Valid(s) && (op.DoReserve? || op.DoCommit? || op.DoAbort? || op.DoSetPathState?)
    ensures Valid(Step(s, op).0)
  {
    match op
    case DoReserve(connection, pathEpoch, keyEpoch, now) =>
      ReserveKeepsValid(s, connection, pathEpoch, keyEpoch, now);
    case DoCommit(r) => CommitKeepsValid(s, r);
    case DoAbort(r) => AbortKeepsValid(s, r);
    case DoSetPathState(id, next) => SetPathStateKeepsValid(s, id, next);
  }

  lemma StepKeepsValid(s: Session, op: Op)
    requires Valid(s)
    ensures Valid(Step(s, op).0)
  {
    if op.DoDetach? {
      if Detachable(s, op.id, op.connection, op.pathEpoch) {
        DetachKeepsValid(s, op.id, op.connection, op.pathEpoch, op.now);
      } else {
        assert Step(s, op).0 == s;
      }
    } else if op.DoReserve? || op.DoCommit? || op.DoAbort? || op.DoSetPathState? {
      AttachStepKeepsValid(s, op);
    } else {
      LifecycleStepKeepsValid(s, op);
    }
  }

  ghost function Run(s: Session, ops: seq<Op>): Session {
    if ops == [] then s else Step(Run(s, ops[..|ops| - 1]), ops[|ops| - 1]).0
  }

  /** The outcome of the `i`th operation of a run. */
  ghost function OutcomeAt(s: Session, ops: seq<Op>, i: nat): Outcome
    requires i < |ops|
  {
    Step(Run(s, ops[..i]), ops[i]).1
  }

  /** The reservations handed out by a run, in order. */
  ghost function Issues(s: Session, ops: seq<Op>): seq<Reservation> {
    if ops == [] then []
    else
      var before := Issues(s, ops[..|ops| - 1]);
      var out := Step(Run(s, ops[..|ops| - 1]), ops[|ops| - 1]).1;
      if out.Issued? then before + [out.r] else before
  }

  /** Every reachable session satisfies the invariant. */
  lemma {:induction false} RunKeepsValid(s: Session, ops: seq<Op>)
    requires Valid(s)
    ensures Valid(Run(s, ops))
  {
    if ops != [] {
      RunKeepsValid(s, ops[..|ops| - 1]);
      StepKeepsValid(Run(s, ops[..|ops| - 1]), ops[|ops| - 1]);
    }
  }

  lemma ReachableIsValid(config: Config, admission: Admission, now: u64, ops: seq<Op>)
    requires New(config, admission, now).Ok?
    ensures Valid(Run(New(config, admission, now).value, ops))
  {
    RunKeepsValid(New(config, admission, now).value, ops);
  }

  ghost predicate Below(r: Reservation, e: Epochs) {
    r.pathEpoch <= e.pathEpoch && r.keyEpoch <= e.keyEpoch
  }

  ghost predicate HistoryCovers(s: Session, issues: seq<Reservation>) {
    forall i :: 0 <= i < |issues| ==> issues[i].pathId in s.history && Below(issues[i], s.history[issues[i].pathId])
  }

  /** Only an issue changes the history; it overwrites one record by strictly larger epochs. */
  lemma StepHistory(s: Session, op: Op)
    requires PathsWellBound(s)
    ensures var (t, out) := Step(s, op);
            && (!out.Issued? ==> t.history == s.history)
            && (out.Issued? ==>
                  && Admissible(Prune(s, op.now), out.r.pathId, out.r.pathEpoch, out.r.keyEpoch)
                  && t.history == s.history[out.r.pathId := Epochs(out.r.pathEpoch, out.r.keyEpoch)])
  {
    if op.DoDetach? && Detachable(s, op.id, op.connection, op.pathEpoch) {
      DetachKeepsHistory(s, op.id, op.connection, op.pathEpoch, op.now);
    }
  }

  lemma {:induction false} HistoryCoversIssues(s: Session, ops: seq<Op>)
    requires Valid(s)
    ensures HistoryCovers(Run(s, ops), Issues(s, ops))
  {
    if ops != [] {
      var before := ops[..|ops| - 1];
      HistoryCoversIssues(s, before);
      RunKeepsValid(s, before);
      StepHistory(Run(s, before), ops[|ops| - 1]);
    }
  }

  /**
    Over any run, a later issue of an identifier carries both a strictly larger
    path epoch and a strictly larger key epoch than every earlier issue of it.
  */
  lemma {:induction false} ReissueRaisesBothEpochs(s: Session, ops: seq<Op>, i: nat, j: nat)
    requires Valid(s)
    requires i < j < |Issues(s, ops)|
    requires Issues(s, ops)[i].pathId == Issues(s, ops)[j].pathId
    ensures Issues(s, ops)[i].pathEpoch < Issues(s, ops)[j].pathEpoch
    ensures Issues(s, ops)[i].keyEpoch < Issues(s, ops)[j].keyEpoch
  {
    var before := ops[..|ops| - 1];
    if j < |Issues(s, before)| {
      ReissueRaisesBothEpochs(s, before, i, j);
    } else {
      HistoryCoversIssues(s, before);
      RunKeepsValid(s, before);
      StepHistory(Run(s, before), ops[|ops| - 1]);
    }
  }

  /** No (path identifier, path epoch) pair is ever issued twice, and 0 never is. */
  lemma IssuedPairsAreUnique(s: Session, ops: seq<Op>)
    requires Valid(s)
    ensures forall i, j :: 0 <= i < j < |Issues(s, ops)| ==>
              (Issues(s, ops)[i].pathId, Issues(s, ops)[i].pathEpoch)
              != (Issues(s, ops)[j].pathId, Issues(s, ops)[j].pathEpoch)
    ensures forall i :: 0 <= i < |Issues(s, ops)| ==> Issues(s, ops)[i].pathId != 0
  {
    var issues := Issues(s, ops);
    forall i, j | 0 <= i < j < |issues| && issues[i].pathId == issues[j].pathId
      ensures issues[i].pathEpoch != issues[j].pathEpoch
    {
      ReissueRaisesBothEpochs(s, ops, i, j);
    }
    HistoryCoversIssues(s, ops);
    RunKeepsValid(s, ops);
  }

  // ---------------------------------------------------------------------
  // Quarantine: exact expiry and conservation
  // ---------------------------------------------------------------------

  /** The clock readings passed to `detach` never go back, starting from `from`. */
  ghost predicate DetachTimesFrom(ops: seq<Op>, from: u64) {
    forall i :: 0 <= i < |ops| && ops[i].DoDetach? ==>
      from <= ops[i].now && forall j :: i < j < |ops| && ops[j].DoDetach? ==> ops[i].now <= ops[j].now
  }

  function LastDetach(ops: seq<Op>, from: u64): u64 {
    if ops == [] then from
    else if ops[|ops| - 1].DoDetach? then ops[|ops| - 1].now
    else LastDetach(ops[..|ops| - 1], from)
  }

  lemma {:induction false} LastDetachIsLatest(ops: seq<Op>, from: u64)
    requires DetachTimesFrom(ops, from)
    ensures from <= LastDetach(ops, from)
    ensures LastDetach(ops, from) == from
            || exists i :: 0 <= i < |ops| && ops[i].DoDetach? && ops[i].now == LastDetach(ops, from)
  {
    if ops != [] && !ops[|ops| - 1].DoDetach? {
      LastDetachIsLatest(ops[..|ops| - 1], from);
    }
  }

  /** Expiry of an entry made at time `now`. */
  function ExpiresAt(s: Session, now: u64): u64 {
    Saturate(now + s.config.pathTombstoneTtlMs)
  }

  /** How each operation moves the quarantine. */
  lemma StepTombs(s: Session, op: Op)
    ensures var (t, out) := Step(s, op);
            && t.config == s.config
            && t.tombs == (if op.DoReserve? || op.DoPrune? then PruneTombs(s.tombs, op.now)
                           else if op.DoDetach? && out == Answer(true) then
                             Entomb(s.tombs, s.config.maximumPathTombstones, op.id, ExpiresAt(s, op.now))
                           else s.tombs)
            && (op.DoDetach? && out == Answer(true) ==> op.id in s.paths)
  {
    if op.DoReserve? {
      ReserveTombs(s, op.connection, op.pathEpoch, op.keyEpoch, op.now);
    }
  }

  lemma ReserveTombs(s: Session, connection: u64, pathEpoch: u64, keyEpoch: u32, now: u64)
    ensures var t := Reserve(s, connection, pathEpoch, keyEpoch, now).0;
            t.config == s.config && t.tombs == PruneTombs(s.tombs, now)
  {
  }

  lemma StepKeepsSorted(s: Session, op: Op, last: u64)
    requires Valid(s) && SortedUpTo(s.tombs, ExpiresAt(s, last))
    requires op.DoDetach? ==> last <= op.now
    ensures var t := Step(s, op).0;
            t.config == s.config && SortedUpTo(t.tombs, ExpiresAt(t, if op.DoDetach? then op.now else last))
  {
    StepTombs(s, op);
    if op.DoReserve? || op.DoPrune? {
      PruneKeepsSortedUpTo(s.tombs, op.now, ExpiresAt(s, last));
    } else if DetachCount(s, op) == 1 {
      EntombKeepsSorted(s.tombs, s.config.maximumPathTombstones, op.id, ExpiresAt(s, last), ExpiresAt(s, op.now));
    }
  }

  lemma {:induction false} RunKeepsSorted(s: Session, ops: seq<Op>, from: u64)
    requires Valid(s) && SortedUpTo(s.tombs, ExpiresAt(s, from))
    requires DetachTimesFrom(ops, from)
    ensures SortedUpTo(Run(s, ops).tombs, ExpiresAt(Run(s, ops), LastDetach(ops, from)))
  {
    if ops != [] {
      var before := ops[..|ops| - 1];
      assert forall i :: 0 <= i < |before| ==> before[i] == ops[i];
      RunKeepsSorted(s, before, from);
      RunKeepsValid(s, before);
      LastDetachIsLatest(before, from);
      StepKeepsSorted(Run(s, before), ops[|ops| - 1], LastDetach(before, from));
    }
  }

  /**
    With a clock that does not go back between detaches, pruning at any time after
    any run from a fresh session removes exactly the expired entries.
  */
  lemma MonotoneClockPrunesExactly(config: Config, admission: Admission, start: u64, ops: seq<Op>, now: u64)
    requires New(config, admission, start).Ok?
    requires DetachTimesFrom(ops, 0)
    ensures PrunesExactly(Run(New(config, admission, start).value, ops).tombs, now)
  {
    var s := New(config, admission, start).value;
    RunKeepsSorted(s, ops, 0);
    SortedPrunesExactly(Run(s, ops).tombs, now);
  }

  ghost function Detaches(s: Session, ops: seq<Op>): nat {
    if ops == [] then 0
    else
      var before := ops[..|ops| - 1];
      Detaches(s, before) + DetachCount(Run(s, before), ops[|ops| - 1])
  }

  ghost function DetachCount(s: Session, op: Op): nat {
    if op.DoDetach? && Step(s, op).1 == Answer(true) then 1 else 0
  }

  /** Only a successful detach changes the account. */
  lemma StepConserves(s: Session, op: Op)
    requires Valid(s)
    requires Accounted(s.tombs) + DetachCount(s, op) <= U64_MAX
    ensures Accounted(Step(s, op).0.tombs) == Accounted(s.tombs) + DetachCount(s, op)
  {
    StepTombs(s, op);
    if op.DoReserve? || op.DoPrune? {
      PruneAccounts(s.tombs, op.now);
    } else if DetachCount(s, op) == 1 {
      EntombKeepsAgreement(s.tombs, s.config.maximumPathTombstones, op.id, ExpiresAt(s, op.now));
    }
  }

  /** Successful detaches = live + expired + capacity-evicted, as long as no counter can have saturated. */
  lemma {:induction false} TombstonesConserved(config: Config, admission: Admission, start: u64, ops: seq<Op>)
    requires New(config, admission, start).Ok?
    requires Detaches(New(config, admission, start).value, ops) <= U64_MAX
    ensures var q := Run(New(config, admission, start).value, ops).tombs;
            Detaches(New(config, admission, start).value, ops) == |q.live| + q.expired + q.evicted
  {
    var s := New(config, admission, start).value;
    if ops != [] {
      var before := ops[..|ops| - 1];
      TombstonesConserved(config, admission, start, before);
      RunKeepsValid(s, before);
      StepConserves(Run(s, before), ops[|ops| - 1]);
    }
  }

  // ---------------------------------------------------------------------
  // A detached identifier is not reused while quarantined
  // ---------------------------------------------------------------------

  /** No prune, on its own or in a reservation, reads a clock at or past `expiresAt`. */
  ghost predicate ReadsBefore(ops: seq<Op>, expiresAt: u64) {
    forall i :: 0 <= i < |ops| && (ops[i].DoReserve? || ops[i].DoPrune?) ==> ops[i].now < expiresAt
  }

  /** A successful detach puts its identifier last in the queue until its expiry. */
  lemma DetachQuarantines(s: Session, op: Op)
    requires Valid(s) && op.DoDetach? && Step(s, op).1 == Answer(true)
    ensures StaysBehind(Step(s, op).0.tombs, op.id, ExpiresAt(s, op.now), 0)
  {
    StepTombs(s, op);
    var q := Step(s, op).0.tombs;
    assert q.order[|q.order| - 1] == op.id;
  }

  lemma StepLeavesQuarantined(s: Session, op: Op, id: u16, expiresAt: u64, behind: nat)
    requires Valid(s) && StaysBehind(s.tombs, id, expiresAt, behind)
    requires op.DoReserve? || op.DoPrune? ==> op.now < expiresAt
    requires behind + DetachCount(s, op) < s.config.maximumPathTombstones
    ensures StaysBehind(Step(s, op).0.tombs, id, expiresAt, behind + DetachCount(s, op))
  {
    StepTombs(s, op);
    if op.DoReserve? || op.DoPrune? {
      PruneLeavesUnexpired(s.tombs, op.now, id, expiresAt, behind);
    } else if DetachCount(s, op) == 1 {
      EntombLeavesBehind(s.tombs, s.config.maximumPathTombstones, op.id, ExpiresAt(s, op.now), id, expiresAt, behind);
    }
  }

  /** An identifier in quarantine until after the clock read is not the one a step issues. */
  lemma QuarantinedIsNotIssued(s: Session, op: Op, id: u16, expiresAt: u64, behind: nat)
    requires PathsWellBound(s) && QueueListsMap(s.tombs) && StaysBehind(s.tombs, id, expiresAt, behind)
    requires op.DoReserve? ==> op.now < expiresAt
    ensures Step(s, op).1.Issued? ==> Step(s, op).1.r.pathId != id
  {
    if Step(s, op).1.Issued? {
      OnlyReserveIssues(s, op);
      PruneLeavesUnexpired(s.tombs, op.now, id, expiresAt, behind);
    }
  }

  lemma OnlyReserveIssues(s: Session, op: Op)
    requires Step(s, op).1.Issued?
    ensures op.DoReserve? && Step(s, op).1.r.pathId !in Prune(s, op.now).tombs.live
  {
  }

  /** Since `s`, `id` has stayed in the queue with at most the detaches made behind it. */
  ghost predicate StillQuarantined(s: Session, ops: seq<Op>, id: u16, expiresAt: u64) {
    && Run(s, ops).config == s.config
    && StaysBehind(Run(s, ops).tombs, id, expiresAt, Detaches(s, ops))
    && forall i :: 0 <= i < |Issues(s, ops)| ==> Issues(s, ops)[i].pathId != id
  }

  lemma StepStaysQuarantined(s: Session, op: Op, id: u16, expiresAt: u64, behind: nat)
    requires Valid(s) && StaysBehind(s.tombs, id, expiresAt, behind)
    requires op.DoReserve? || op.DoPrune? ==> op.now < expiresAt
    requires behind + DetachCount(s, op) < s.config.maximumPathTombstones
    ensures Step(s, op).0.config == s.config
    ensures StaysBehind(Step(s, op).0.tombs, id, expiresAt, behind + DetachCount(s, op))
    ensures Step(s, op).1.Issued? ==> Step(s, op).1.r.pathId != id
  {
    StepTombs(s, op);
    StepLeavesQuarantined(s, op, id, expiresAt, behind);
    QuarantinedIsNotIssued(s, op, id, expiresAt, behind);
  }

  lemma {:induction false} QuarantineLasts(s: Session, ops: seq<Op>, id: u16, expiresAt: u64)
    requires Valid(s) && StaysBehind(s.tombs, id, expiresAt, 0)
    requires ReadsBefore(ops, expiresAt) && Detaches(s, ops) < s.config.maximumPathTombstones
    ensures StillQuarantined(s, ops, id, expiresAt)
  {
    if ops != [] {
      var before, op := ops[..|ops| - 1], ops[|ops| - 1];
      QuarantineLasts(s, before, id, expiresAt);
      RunKeepsValid(s, before);
      StepStaysQuarantined(Run(s, before), op, id, expiresAt, Detaches(s, before));
    }
  }

  /**
    After a successful detach its identifier is not issued again before some prune or
    reservation reads a clock at or past its expiry, or as many further detaches
    succeed as the quarantine holds.
  */
  lemma DetachedIsNotReused(s: Session, detach: Op, ops: seq<Op>)
    requires Valid(s) && detach.DoDetach? && Step(s, detach).1 == Answer(true)
    requires ReadsBefore(ops, ExpiresAt(s, detach.now))
    requires Detaches(Step(s, detach).0, ops) < s.config.maximumPathTombstones
    ensures var issues := Issues(Step(s, detach).0, ops);
            forall i :: 0 <= i < |issues| ==> issues[i].pathId != detach.id
  {
    StepKeepsValid(s, detach);
    StepTombs(s, detach);
    DetachQuarantines(s, detach);
    QuarantineLasts(Step(s, detach).0, ops, detach.id, ExpiresAt(s, detach.now));
  }

  // ---------------------------------------------------------------------
  // A falling clock leaves expired entries behind
  // ---------------------------------------------------------------------

  const NO_TOMBS := Tombs(map[], [], 0, 0)

  const SMALL_CONFIG := Config(2, 2, 2, 10)

  /** Two paths are bound, then detached at times 100 and 50 with a quarantine of 10, then pruned at 70. */
  function FallingRun(): seq<Op> {
    [DoActivate(0),
     DoReserve(7, 1, 1, 0), DoCommit(Reservation(1, 1, 1, 7)),
     DoReserve(8, 1, 1, 0), DoCommit(Reservation(2, 1, 1, 8)),
     DoDetach(1, 7, 1, 100), DoDetach(2, 8, 1, 50), DoPrune(70)]
  }

  lemma StepFollows(s0: Session, ops: seq<Op>, n: nat, s: Session, t: Session)
    requires n < |ops| && Run(s0, ops[..n]) == s && Step(s, ops[n]).0 == t
    ensures Run(s0, ops[..n + 1]) == t
  {
    assert ops[..n + 1][..n] == ops[..n];
  }

  /** With nothing quarantined a reservation takes the identifier at the cursor, if it may be issued. */
  lemma ReserveAtCursor(s: Session, connection: u64, pathEpoch: u64, keyEpoch: u32, now: u64)
    requires s.tombs == NO_TOMBS && s.nextPathId != 0 && Admissible(s, s.nextPathId, pathEpoch, keyEpoch)
    requires ReserveGuard(s, connection, pathEpoch, keyEpoch, now) == None
    ensures var r := Reservation(s.nextPathId, pathEpoch, keyEpoch, connection);
            Reserve(s, connection, pathEpoch, keyEpoch, now) == (Issue(s, r), Ok(r))
  {
    assert PruneTombs(NO_TOMBS, now) == NO_TOMBS;
    assert Nearest(s, s.nextPathId, pathEpoch, keyEpoch);
    NearestIsUnique(s, s.nextPathId, pathEpoch, keyEpoch);
  }

  /** A reservation at the cursor and its commit bind a path. */
  lemma BindPath(s0: Session, ops: seq<Op>, n: nat, s: Session, connection: u64)
    requires n + 1 < |ops| && Run(s0, ops[..n]) == s && s.tombs == NO_TOMBS && s.nextPathId != 0
    requires Admissible(s, s.nextPathId, 1, 1) && ReserveGuard(s, connection, 1, 1, 0) == None
    requires ops[n] == DoReserve(connection, 1, 1, 0)
    requires ops[n + 1] == DoCommit(Reservation(s.nextPathId, 1, 1, connection))
    ensures var r := Reservation(s.nextPathId, 1, 1, connection);
            Run(s0, ops[..n + 2]) == Rebind(Issue(s, r), r.pathId, Attached)
  {
    var r := Reservation(s.nextPathId, 1, 1, connection);
    var t := Issue(s, r);
    ReserveAtCursor(s, connection, 1, 1, 0);
    StepFollows(s0, ops, n, s, t);
    StepFollows(s0, ops, n + 1, t, Rebind(t, r.pathId, Attached));
  }

  /** What binding two paths leads to. */
  function TwoBound(a: Admission): Session {
    Session(a, SMALL_CONFIG, Active,
            map[1 := PathEntry(Binding(1, 1, 1, 7, Attached), false),
                2 := PathEntry(Binding(2, 1, 1, 8, Attached), false)],
            3, map[1 := Epochs(1, 1), 2 := Epochs(1, 1)], NO_TOMBS)
  }

  /** One path bound, at the cursor. */
  function OneBound(a: Admission): Session {
    Session(a, SMALL_CONFIG, Active, map[1 := PathEntry(Binding(1, 1, 1, 7, Attached), false)],
            2, map[1 := Epochs(1, 1)], NO_TOMBS)
  }

  lemma BindingStates(a: Admission, none: Session)
    requires none == Session(a, SMALL_CONFIG, Active, map[], 1, map[], NO_TOMBS)
    ensures Rebind(Issue(none, Reservation(1, 1, 1, 7)), 1, Attached) == OneBound(a)
    ensures Rebind(Issue(OneBound(a), Reservation(2, 1, 1, 8)), 2, Attached) == TwoBound(a)
    ensures |OneBound(a).paths| == |OneBound(a).history| == 1
  {
    assert OneBound(a).paths.Keys == {1} && OneBound(a).history.Keys == {1};
  }

  lemma FallingRunBindsTwo(a: Admission, ops: seq<Op>)
    requires a.expiresAtMs == 1000 && |ops| == 8 && ops[0] == DoActivate(0)
    requires ops[1] == DoReserve(7, 1, 1, 0) && ops[2] == DoCommit(Reservation(1, 1, 1, 7))
    requires ops[3] == DoReserve(8, 1, 1, 0) && ops[4] == DoCommit(Reservation(2, 1, 1, 8))
    ensures New(SMALL_CONFIG, a, 0).Ok?
    ensures Run(New(SMALL_CONFIG, a, 0).value, ops[..5]) == TwoBound(a)
  {
    var s0 := New(SMALL_CONFIG, a, 0).value;
    var s1 := s0.(state := Active);
    StepFollows(s0, ops, 0, s0, s1);
    BindPath(s0, ops, 1, s1, 7);
    BindingStates(a, s1);
    BindPath(s0, ops, 3, OneBound(a), 8);
  }

  /** The second entry expired at 60, but the first, which expires at 110, keeps it from the prune at 70. */
  lemma FallingClockKeepsExpired(a: Admission)
    requires a.expiresAtMs == 1000
    ensures New(SMALL_CONFIG, a, 0).Ok?
    ensures var q := Run(New(SMALL_CONFIG, a, 0).value, FallingRun()).tombs;
            q.order == [1, 2] && q.live == map[1 := 110, 2 := 60]
  {
    var ops := FallingRun();
    var s0 := New(SMALL_CONFIG, a, 0).value;
    FallingRunBindsTwo(a, ops);
    FallingDetaches(s0, ops, TwoBound(a), a);
  }

  lemma FallingDetaches(s0: Session, ops: seq<Op>, s5: Session, a: Admission)
    requires |ops| == 8 && Run(s0, ops[..5]) == s5 == TwoBound(a)
    requires ops[5] == DoDetach(1, 7, 1, 100) && ops[6] == DoDetach(2, 8, 1, 50) && ops[7] == DoPrune(70)
    ensures Run(s0, ops).tombs == Tombs(map[1 := 110, 2 := 60], [1, 2], 0, 0)
  {
    var s6 := Detach(s5, 1, 7, 1, 100).0;
    var s7 := Detach(s6, 2, 8, 1, 50).0;
    DetachedTombs(a);
    StepFollows(s0, ops, 5, s5, s6);
    StepFollows(s0, ops, 6, s6, s7);
    StepFollows(s0, ops, 7, s7, s7);
    assert ops[..8] == ops;
  }

  lemma DetachedTombs(a: Admission)
    ensures var s6 := Detach(TwoBound(a), 1, 7, 1, 100).0;
            var s7 := Detach(s6, 2, 8, 1, 50).0;
            s7.tombs == Tombs(map[1 := 110, 2 := 60], [1, 2], 0, 0) && Prune(s7, 70) == s7
  {
    var q1, q2 := Tombs(map[1 := 110], [1], 0, 0), Tombs(map[1 := 110, 2 := 60], [1, 2], 0, 0);
    EntombsInto(NO_TOMBS, 2, 1, 110, q1);
    EntombsInto(q1, 2, 2, 60, q2);
    assert PruneTombs(q2, 70) == q2;
  }

  lemma EntombsInto(q: Tombs, capacity: nat, id: u16, expiresAt: u64, t: Tombs)
    requires |q.live| < capacity && t == q.(live := q.live[id := expiresAt], order := q.order + [id])
    ensures Entomb(q, capacity, id, expiresAt) == t
  {
  }

  // ---------------------------------------------------------------------
  // Lifecycle
  // ---------------------------------------------------------------------

  function Rank(state: SessionState): nat {
    match state case Pending => 0 case Active => 1 case Draining => 2 case Closed => 3
  }

  /**
    One step: the state rank never goes back, only a step that answers `true` to
    close reaches Closed, and a refused call changes nothing except pruned tombstones.
  */
  lemma StepIsOrderly(s: Session, op: Op)
    ensures var (t, out) := Step(s, op);
            && Rank(s.state) <= Rank(t.state)
            && (s.state != Closed && t.state == Closed <==> op.DoClose? && out == Answer(true))
            && (out.Refused? || out == Answer(false) ==>
                  t == if op.DoReserve? then Prune(s, op.now) else s)
  {
  }

  lemma {:induction false} RankNeverGoesBack(s: Session, ops: seq<Op>, i: nat, j: nat)
    requires i <= j <= |ops|
    ensures Rank(Run(s, ops[..i]).state) <= Rank(Run(s, ops[..j]).state)
  {
    if i < j {
      RankNeverGoesBack(s, ops, i, j - 1);
      assert ops[..j][..j - 1] == ops[..j - 1];
      StepIsOrderly(Run(s, ops[..j - 1]), ops[j - 1]);
    }
  }

  /** Over any run, `close` answers `true` at most once. */
  lemma CloseAnswersTrueOnce(s: Session, ops: seq<Op>, i: nat, j: nat)
    requires i < j < |ops|
    requires ops[i].DoClose? && OutcomeAt(s, ops, i) == Answer(true)
    ensures !(ops[j].DoClose? && OutcomeAt(s, ops, j) == Answer(true))
  {
    assert ops[..i + 1][..i] == ops[..i];
    StepIsOrderly(Run(s, ops[..i]), ops[i]);
    RankNeverGoesBack(s, ops, i + 1, j);
  }

  /** The session state moves only forward along these three arrows, each under its own condition. */
  lemma StepMovesState(s: Session, op: Op)
    ensures var (t, out) := Step(s, op);
            && (s.state == Pending && t.state == Active <==>
                  op.DoActivate? && op.now < s.admission.expiresAtMs && s.state == Pending)
            && (s.state == Active && t.state == Draining <==> op.DoDrain? && s.state == Active)
            && (s.state != Closed && t.state == Closed <==> op.DoClose? && s.state != Closed)
            && (op.DoClose? && s.state != Closed ==> t.paths == map[])
            && (op.DoActivate? && out.Refused? ==>
                  out.e == if s.admission.expiresAtMs <= op.now then Expired else InvalidSessionState)
            && (op.DoDrain? && out.Refused? ==> out.e == InvalidSessionState)
            && (t.state != s.state ==>
                  (s.state, t.state) in {(Pending, Active), (Active, Draining), (Pending, Closed),
                                         (Active, Closed), (Draining, Closed)})
  {
  }

  /**
    How one step can change what is recorded for an identifier: a reservation opens
    it, a commit attaches it, a requested move follows an edge, an abort, a detach
    or the close removes it. Nothing else in the entry ever changes.
  */
  lemma StepMovesPath(s: Session, op: Op, id: u16)
    requires PathsWellBound(s)
    ensures var (t, out) := Step(s, op);
            && (id in s.paths && id in t.paths && s.paths[id] != t.paths[id] ==>
                  && s.paths[id].binding == t.paths[id].binding.(state := s.paths[id].binding.state)
                  && !t.paths[id].reserved
                  && if s.paths[id].reserved
                     then op.DoCommit? && s.paths[id].binding.state.Connecting? && t.paths[id].binding.state.Attached?
                     else op.DoSetPathState? && Edge(s.paths[id].binding.state, t.paths[id].binding.state))
            && (id !in s.paths && id in t.paths ==> out.Issued? && t.paths[id] == Opened(out.r) && out.r.pathId == id)
            && (id in s.paths && id !in t.paths ==>
                  && out == Answer(true)
                  && if s.paths[id].reserved then op.DoAbort? || op.DoClose? else op.DoDetach? || op.DoClose?)
  {
    match op
    case DoReserve(connection, pathEpoch, keyEpoch, now) =>
      if Step(s, op).1.Issued? {
        ReserveGrants(s, connection, pathEpoch, keyEpoch, now);
      }
    case DoSetPathState(other, next) => SetPathStateAnswers(s, other, next);
    case DoCommit(r) => CommitAnswers(s, r);
    case DoAbort(r) => AbortAnswers(s, r);
    case DoDetach(other, connection, pathEpoch, now) => DetachAnswers(s, other, connection, pathEpoch, now);
    case _ =>
  }

  lemma {:induction false} RunKeepsAdmission(s: Session, ops: seq<Op>)
    ensures Run(s, ops).admission == s.admission
  {
    if ops != [] {
      var before := ops[..|ops| - 1];
      RunKeepsAdmission(s, before);
      assert Step(Run(s, before), ops[|ops| - 1]).0.admission == Run(s, before).admission;
    }
  }

  lemma IssueIsUnexpired(s: Session, op: Op)
    requires Valid(s) && Step(s, op).1.Issued?
    ensures op.DoReserve? && op.now < s.admission.expiresAtMs && s.state == Active
  {
    OnlyReserveIssues(s, op);
    ReserveAnswers(s, op.connection, op.pathEpoch, op.keyEpoch, op.now);
  }

  /** Over any run nothing is issued at or past the expiry of the admission, nor outside the active state. */
  lemma IssuesAreUnexpired(s: Session, ops: seq<Op>, i: nat)
    requires Valid(s) && i < |ops| && OutcomeAt(s, ops, i).Issued?
    ensures ops[i].DoReserve? && ops[i].now < s.admission.expiresAtMs
    ensures Run(s, ops[..i]).state == Active
  {
    RunKeepsValid(s, ops[..i]);
    RunKeepsAdmission(s, ops[..i]);
    IssueIsUnexpired(Run(s, ops[..i]), ops[i]);
  }
}
