/**
 * The rotating king: guarded rotation at each block, background catch-up, the schedule both follow, and the
 * alignment of a node with the king that an accepted block names.
 */
module RotatingKing {
  import opened Accounts
  import opened Bytes
  import opened Wrappers

  const HISTORY_LIMIT: nat := 100

  datatype Config = Config(kings: seq<Address>, interval: nat, minStake: int)

  /** The four numbers that decide who is king. */
  datatype Schedule = Schedule(index: nat, rotatedAt: nat, nextAt: nat, count: nat)

  datatype Rotation = Rotation(height: nat, previous: Address, next: Address, wasEligible: bool)

  datatype Consensus = NoBroadcaster | CheckFailed | Disagreed | Agreed

  datatype RotateError = UnknownKing | NoKings | NotDue(next: nat) | ConsensusCheckFailed | NoConsensus | StateNotSaved

  // ---------- the schedule as values ----------

  /** The list position `steps` turns after `index`. */
  function Position(cfg: Config, index: nat, steps: nat): (p: nat)
    requires cfg.kings != []
    ensures p < |cfg.kings|
  {
    (index + steps) % |cfg.kings|
  }

  /** The next list position, the first after the last. */
  function Successor(cfg: Config, index: nat): nat {
    if index + 1 < |cfg.kings| then index + 1 else 0
  }

  lemma SuccessorIsPosition(cfg: Config, index: nat)
    requires index < |cfg.kings|
    ensures Successor(cfg, index) == Position(cfg, index, 1) == (index + 1) % |cfg.kings|
  {
    if index + 1 < |cfg.kings| {
      QuotientUnique(index + 1, |cfg.kings|, 0, index + 1);
    } else {
      QuotientUnique(index + 1, |cfg.kings|, 1, 0);
    }
  }

  function Rotated(s: Schedule, cfg: Config, height: nat): Schedule {
    Schedule(Successor(cfg, s.index), height, height + cfg.interval, s.count + 1)
  }

  predicate Due(s: Schedule, cfg: Config, height: nat) {
    cfg.kings != [] && height >= s.nextAt
  }

  /** The catch-up loop over the heights `from`, ..., `stop - 1`; a height without a stored block is passed over. */
  ghost function VisitAll(s: Schedule, cfg: Config, from: nat, stop: nat, blocks: set<nat>): Schedule
    decreases stop
  {
    if stop <= from then s
    else
      var t := VisitAll(s, cfg, from, stop - 1, blocks);
      if Due(t, cfg, stop - 1) && stop - 1 in blocks then Rotated(t, cfg, stop - 1) else t
  }

  /** A state right after its last rotation, with the next one a full interval away. */
  predicate OnSchedule(s: Schedule, cfg: Config) {
    cfg.kings != [] && cfg.interval > 0 && s.index < |cfg.kings| && s.nextAt == s.rotatedAt + cfg.interval
  }

  /** Where the schedule stands once every height up to `frontier` has been looked at. */
  function At(s: Schedule, cfg: Config, frontier: nat): Schedule
    requires OnSchedule(s, cfg) && s.rotatedAt <= frontier
  {
    var rounds := (frontier - s.rotatedAt) / cfg.interval;
    var last := s.rotatedAt + rounds * cfg.interval;
    Schedule(Position(cfg, s.index, rounds), last, last + cfg.interval, s.count + rounds)
  }

  lemma ModSucc(a: nat, n: nat)
    requires n > 0
    ensures (a % n + 1) % n == (a + 1) % n
  {
    var q, r := a / n, a % n;
    if r + 1 < n {
      QuotientUnique(a + 1, n, q, r + 1);
      QuotientUnique(r + 1, n, 0, r + 1);
    } else {
      assert a + 1 == n * (q + 1) + 0;
      QuotientUnique(a + 1, n, q + 1, 0);
      QuotientUnique(r + 1, n, 1, 0);
    }
  }

  /** The last rotation is the latest due height, so the next one lies beyond the frontier. */
  lemma AtBounds(s: Schedule, cfg: Config, frontier: nat)
    requires OnSchedule(s, cfg) && s.rotatedAt <= frontier
    ensures var t := At(s, cfg, frontier);
            OnSchedule(t, cfg) && t.rotatedAt <= frontier < t.nextAt && (t.rotatedAt - s.rotatedAt) % cfg.interval == 0
  {
    var d, i := frontier - s.rotatedAt, cfg.interval;
    assert d == i * (d / i) + d % i;
    QuotientUnique(d / i * i, i, d / i, 0);
  }

  lemma QuotientNext(d: nat, i: nat)
    requires i > 0
    ensures d / i * i <= d < d / i * i + i
    ensures (d + 1) / i == if d + 1 == d / i * i + i then d / i + 1 else d / i
  {
    var q, r := d / i, d % i;
    assert d == i * q + r;
    if r + 1 < i {
      QuotientUnique(d + 1, i, q, r + 1);
    } else {
      QuotientUnique(d + 1, i, q + 1, 0);
    }
  }

  lemma PositionSucc(cfg: Config, index: nat, q: nat)
    requires cfg.kings != []
    ensures Successor(cfg, Position(cfg, index, q)) == Position(cfg, index, q + 1)
  {
    SuccessorIsPosition(cfg, Position(cfg, index, q));
    ModSucc(index + q, |cfg.kings|);
  }

  /** One more height rotates exactly when it is the one the schedule names. */
  lemma AtNext(s: Schedule, cfg: Config, frontier: nat)
    requires OnSchedule(s, cfg) && s.rotatedAt <= frontier
    ensures var t := At(s, cfg, frontier);
            && At(s, cfg, frontier + 1) == (if Due(t, cfg, frontier + 1) then Rotated(t, cfg, frontier + 1) else t)
            && (Due(t, cfg, frontier + 1) ==> frontier + 1 == t.nextAt)
  {
    var d, i := frontier - s.rotatedAt, cfg.interval;
    QuotientNext(d, i);
    assert frontier + 1 - s.rotatedAt == d + 1;
    if (d + 1) / i > d / i {
      assert (d / i + 1) * i == d / i * i + i;
      PositionSucc(cfg, s.index, d / i);
    }
  }

  /** Looking again at heights already covered changes nothing; each new height advances the closed form. */
  lemma {:induction false} VisitAllFollowsAt(s: Schedule, cfg: Config, frontier: nat, from: nat, stop: nat,
                                             blocks: set<nat>)
    requires OnSchedule(s, cfg) && s.rotatedAt <= frontier && from <= frontier + 1
    requires forall h :: frontier < h < stop ==> h in blocks
    ensures VisitAll(At(s, cfg, frontier), cfg, from, stop, blocks) ==
              At(s, cfg, if stop > frontier + 1 then stop - 1 else frontier)
    decreases stop
  {
    AtBounds(s, cfg, frontier);
    if stop > from {
      VisitAllFollowsAt(s, cfg, frontier, from, stop - 1, blocks);
      if stop > frontier + 1 {
        AtNext(s, cfg, stop - 2);
      }
    }
  }

  lemma AtSoon(s: Schedule, cfg: Config, frontier: nat)
    requires OnSchedule(s, cfg) && s.rotatedAt <= frontier < s.nextAt
    ensures At(s, cfg, frontier) == s
  {
    QuotientUnique(frontier - s.rotatedAt, cfg.interval, 0, frontier - s.rotatedAt);
    PositionOnce(cfg, s.index, 0);
  }

  lemma TogetherOnward(s: Schedule, t: Schedule, cfg: Config, frontier: nat)
    requires OnSchedule(s, cfg) && OnSchedule(t, cfg) && s.rotatedAt <= frontier && t.rotatedAt <= frontier
    requires At(s, cfg, frontier) == At(t, cfg, frontier)
    ensures At(s, cfg, frontier + 1) == At(t, cfg, frontier + 1)
  {
    AtNext(s, cfg, frontier);
    AtNext(t, cfg, frontier);
  }

  /** Catching up to one height and then to a higher one is catching up once. */
  lemma CatchUpInPieces(s: Schedule, cfg: Config, middle: nat, frontier: nat)
    requires OnSchedule(s, cfg) && s.rotatedAt <= middle <= frontier
    ensures OnSchedule(At(s, cfg, middle), cfg) && At(s, cfg, middle).rotatedAt <= middle
    ensures At(At(s, cfg, middle), cfg, frontier) == At(s, cfg, frontier)
    decreases frontier
  {
    AtBounds(s, cfg, middle);
    var t := At(s, cfg, middle);
    if frontier == middle {
      AtSoon(t, cfg, middle);
    } else {
      CatchUpInPieces(s, cfg, middle, frontier - 1);
      TogetherOnward(t, s, cfg, frontier - 1);
    }
  }

  /** Extending the loop over no heights is no change. */
  lemma VisitNone(s: Schedule, cfg: Config, from: nat, height: nat, stop: nat, blocks: set<nat>)
    requires height == stop || (stop <= from && height <= from)
    ensures VisitAll(s, cfg, from, height, blocks) == VisitAll(s, cfg, from, stop, blocks)
  {
  }

  // ---------- alignment with the king of a block ----------

  /** The first list position of an address, or the length of the list. */
  function IndexOf(kings: seq<Address>, a: Address): (i: nat)
    ensures i <= |kings| && (i < |kings| <==> a in kings)
    ensures i < |kings| ==> kings[i] == a
    ensures forall j :: 0 <= j < i ==> kings[j] != a
  {
    if kings == [] || kings[0] == a then 0 else 1 + IndexOf(kings[1..], a)
  }

  function Forced(s: Schedule, cfg: Config, index: nat, height: nat): Schedule {
    Schedule(index, height, height + cfg.interval, s.count + 1)
  }

  function KingOf(s: Schedule, cfg: Config): Address {
    if s.index < |cfg.kings| then cfg.kings[s.index] else NO_ADDRESS
  }

  /** The block paid a king, and another than the present one. */
  predicate Misaligned(s: Schedule, cfg: Config, king: Address) {
    king != NO_ADDRESS && king != KingOf(s, cfg)
  }

  function Aligned(s: Schedule, cfg: Config, chainHeight: nat, king: Address): Schedule {
    if Misaligned(s, cfg, king) && king in cfg.kings then Forced(s, cfg, IndexOf(cfg.kings, king), chainHeight) else s
  }

  /** What a validated block does: align, then rotate if due. A king who is not listed stops it. */
  function Processed(s: Schedule, cfg: Config, height: nat, chainHeight: nat, king: Address): Schedule {
    if Misaligned(s, cfg, king) && king !in cfg.kings then s
    else
      var t := Aligned(s, cfg, chainHeight, king);
      if Due(t, cfg, height) then Rotated(t, cfg, height) else t
  }

  // ---------- interleavings ----------

  /**
   * A rotation checked at a height, a validated block with the king it paid, or a background catch-up cut short
   * at `cancelAt`.
   */
  datatype Op =
    | NewBlock(height: nat)
    | Validated(height: nat, chainHeight: nat, king: Address)
    | CatchUp(target: nat, chainHeight: nat, cancelAt: nat, blocks: set<nat>)

  function Min(a: nat, b: nat): nat {
    if a < b then a else b
  }

  function CatchUpStart(rotatedAt: nat): nat {
    if rotatedAt == 0 then 1 else rotatedAt
  }

  function CatchUpEnd(target: nat, chainHeight: nat, cancelAt: nat): nat {
    Min(Min(target, chainHeight) + 1, cancelAt)
  }

  /** Which heights a catch-up looks at: from the last rotation on, none of height zero, up to the first limit. */
  lemma CatchUpHeights(rotatedAt: nat, target: nat, chainHeight: nat, cancelAt: nat, h: nat)
    ensures CatchUpStart(rotatedAt) <= h < CatchUpEnd(target, chainHeight, cancelAt) <==>
              1 <= h && rotatedAt <= h <= target && h <= chainHeight && h < cancelAt
  {
  }

  ghost function Step(s: Schedule, cfg: Config, op: Op): Schedule {
    match op
    case NewBlock(h) => if Due(s, cfg, h) then Rotated(s, cfg, h) else s
    case Validated(h, top, king) => Processed(s, cfg, h, top, king)
    case CatchUp(target, top, cancelAt, blocks) =>
      VisitAll(s, cfg, CatchUpStart(s.rotatedAt), CatchUpEnd(target, top, cancelAt), blocks)
  }

  ghost function Run(s: Schedule, cfg: Config, ops: seq<Op>): Schedule {
    if ops == [] then s else Step(Run(s, cfg, ops[..|ops| - 1]), cfg, ops[|ops| - 1])
  }

  lemma {:induction false} VisitAllOnSchedule(s: Schedule, cfg: Config, from: nat, stop: nat, blocks: set<nat>)
    requires OnSchedule(s, cfg)
    ensures OnSchedule(VisitAll(s, cfg, from, stop, blocks), cfg)
    decreases stop
  {
    if stop > from {
      VisitAllOnSchedule(s, cfg, from, stop - 1, blocks);
    }
  }

  lemma StepOnSchedule(s: Schedule, cfg: Config, op: Op)
    requires OnSchedule(s, cfg)
    ensures OnSchedule(Step(s, cfg, op), cfg)
  {
    match op
    case NewBlock(_) =>
    case Validated(_, _, _) =>
    case CatchUp(target, top, cancelAt, blocks) =>
      VisitAllOnSchedule(s, cfg, CatchUpStart(s.rotatedAt), CatchUpEnd(target, top, cancelAt), blocks);
  }

  /** The highest height covered after an operation. */
  function Covered(frontier: nat, op: Op): (h: nat)
    ensures h >= frontier
  {
    match op
    case NewBlock(h) => if h > frontier then h else frontier
    case Validated(h, _, _) => if h > frontier then h else frontier
    case CatchUp(target, top, cancelAt, _) =>
      var stop := CatchUpEnd(target, top, cancelAt);
      if stop > frontier + 1 then stop - 1 else frontier
  }

  function Frontier(start: nat, ops: seq<Op>): (h: nat)
    ensures h >= start
  {
    if ops == [] then start else Covered(Frontier(start, ops[..|ops| - 1]), ops[|ops| - 1])
  }

  /**
   * No height above the frontier is passed over: blocks come one higher at most, catch-up finds its blocks.
   * A block that paid a king paid the scheduled one.
   */
  ghost predicate Orderly(s: Schedule, cfg: Config, frontier: nat, op: Op)
    requires OnSchedule(s, cfg) && s.rotatedAt <= frontier
  {
    match op
    case NewBlock(h) => h <= frontier + 1
    case Validated(h, _, king) => h <= frontier + 1 && !Misaligned(At(s, cfg, frontier), cfg, king)
    case CatchUp(target, top, cancelAt, blocks) =>
      forall h :: frontier < h < CatchUpEnd(target, top, cancelAt) ==> h in blocks
  }

  ghost predicate RunOrderly(s: Schedule, cfg: Config, start: nat, ops: seq<Op>)
    requires OnSchedule(s, cfg) && s.rotatedAt <= start
  {
    ops == [] ||
    (RunOrderly(s, cfg, start, ops[..|ops| - 1]) &&
     Orderly(s, cfg, Frontier(start, ops[..|ops| - 1]), ops[|ops| - 1]))
  }

  lemma StepFollowsAt(s: Schedule, cfg: Config, frontier: nat, op: Op)
    requires OnSchedule(s, cfg) && s.rotatedAt <= frontier && Orderly(s, cfg, frontier, op)
    ensures Step(At(s, cfg, frontier), cfg, op) == At(s, cfg, Covered(frontier, op))
  {
    AtBounds(s, cfg, frontier);
    match op
    case NewBlock(_) => AtNext(s, cfg, frontier);
    case Validated(_, _, _) => AtNext(s, cfg, frontier);
    case CatchUp(target, top, cancelAt, blocks) =>
      VisitAllFollowsAt(s, cfg, frontier, CatchUpStart(At(s, cfg, frontier).rotatedAt),
                        CatchUpEnd(target, top, cancelAt), blocks);
  }

  /**
   * Confluence: whatever the order of rotations, validated blocks and catch-ups, an orderly run ends in the
   * state its frontier determines, with the next rotation still ahead.
   */
  lemma {:induction false} RunFollowsAt(s: Schedule, cfg: Config, start: nat, ops: seq<Op>)
    requires OnSchedule(s, cfg) && s.rotatedAt <= start < s.nextAt && RunOrderly(s, cfg, start, ops)
    ensures Run(s, cfg, ops) == At(s, cfg, Frontier(start, ops))
    ensures Run(s, cfg, ops).nextAt > Frontier(start, ops)
  {
    if ops == [] {
      AtSoon(s, cfg, start);
    } else {
      var rest := ops[..|ops| - 1];
      RunFollowsAt(s, cfg, start, rest);
      StepFollowsAt(s, cfg, Frontier(start, rest), ops[|ops| - 1]);
      AtBounds(s, cfg, Frontier(start, ops));
    }
  }

  /**
   * A node that rotates late, because the due height was skipped, refused or its block was missing, does not
   * make up for it by rotating: at every later height it disagrees with a node that rotated on time.
   */
  lemma LateRotationPersists(s: Schedule, cfg: Config, height: nat, frontier: nat)
    requires OnSchedule(s, cfg) && s.nextAt <= height <= frontier
    ensures OnSchedule(Rotated(s, cfg, height), cfg)
    ensures At(Rotated(s, cfg, height), cfg, frontier) == At(s, cfg, frontier) <==> height == s.nextAt
  {
    if height == s.nextAt {
      AtRotation(s, cfg);
      CatchUpInPieces(s, cfg, height, frontier);
    } else {
      LateRoundsDiffer(s, cfg, height, frontier);
    }
  }

  lemma AtRotation(s: Schedule, cfg: Config)
    requires OnSchedule(s, cfg)
    ensures At(s, cfg, s.nextAt) == Rotated(s, cfg, s.nextAt)
  {
    QuotientUnique(cfg.interval, cfg.interval, 1, 0);
    SuccessorIsPosition(cfg, s.index);
  }

  lemma LateRoundsDiffer(s: Schedule, cfg: Config, height: nat, frontier: nat)
    requires OnSchedule(s, cfg) && s.nextAt < height <= frontier
    ensures At(Rotated(s, cfg, height), cfg, frontier) != At(s, cfg, frontier)
  {
    var i := cfg.interval;
    var late, onTime := (frontier - height) / i, (frontier - s.rotatedAt) / i;
    if late + 1 == onTime {
      assert onTime * i == late * i + i;
    }
  }

  // ---------- blocks that name their king ----------

  /** Looks at one more height. */
  function Onward(u: Schedule, cfg: Config, height: nat): Schedule {
    if Due(u, cfg, height) then Rotated(u, cfg, height) else u
  }

  /** A node that has looked at every height since its last rotation. */
  function OnTime(s: Schedule, cfg: Config, height: nat): Schedule
    decreases height
  {
    if height <= s.rotatedAt then s else Onward(OnTime(s, cfg, height - 1), cfg, height)
  }

  predicate Current(u: Schedule, cfg: Config, height: nat) {
    OnSchedule(u, cfg) && u.rotatedAt <= height < u.nextAt
  }

  /** Such a node stands where the closed form says. */
  lemma {:induction false} OnTimeIsAt(s: Schedule, cfg: Config, height: nat)
    requires OnSchedule(s, cfg) && s.rotatedAt <= height
    ensures OnTime(s, cfg, height) == At(s, cfg, height) && Current(OnTime(s, cfg, height), cfg, height)
    decreases height
  {
    AtBounds(s, cfg, height);
    if height == s.rotatedAt {
      AtSoon(s, cfg, height);
    } else {
      OnTimeIsAt(s, cfg, height - 1);
      AtNext(s, cfg, height - 1);
    }
  }

  lemma {:induction false} OnTimeIsCurrent(s: Schedule, cfg: Config, height: nat)
    requires OnSchedule(s, cfg) && s.rotatedAt <= height
    ensures Current(OnTime(s, cfg, height), cfg, height)
    decreases height
  {
    if height > s.rotatedAt {
      OnTimeIsCurrent(s, cfg, height - 1);
    }
  }

  lemma {:induction false} NoneDue(s: Schedule, cfg: Config, from: nat, last: nat)
    requires OnSchedule(s, cfg) && s.rotatedAt <= from <= last < OnTime(s, cfg, from).nextAt
    ensures OnTime(s, cfg, last) == OnTime(s, cfg, from)
    decreases last
  {
    if from < last {
      NoneDue(s, cfg, from, last - 1);
    }
  }

  /** The schedule rotates exactly at the height it names. */
  lemma NextRotation(s: Schedule, cfg: Config, from: nat)
    requires OnSchedule(s, cfg) && s.rotatedAt <= from
    ensures var u := OnTime(s, cfg, from);
            && from < u.nextAt <= from + cfg.interval && OnTime(s, cfg, u.nextAt - 1) == u
            && OnTime(s, cfg, u.nextAt) == Rotated(u, cfg, u.nextAt)
  {
    OnTimeIsCurrent(s, cfg, from);
    NoneDue(s, cfg, from, OnTime(s, cfg, from).nextAt - 1);
  }

  lemma NextRotationOf(s: Schedule, cfg: Config, from: nat, u: Schedule)
    requires OnSchedule(s, cfg) && s.rotatedAt <= from && OnTime(s, cfg, from) == u
    ensures OnTime(s, cfg, u.nextAt) == Rotated(u, cfg, u.nextAt) && OnSchedule(Rotated(u, cfg, u.nextAt), cfg)
  {
    NextRotation(s, cfg, from);
    OnTimeIsCurrent(s, cfg, from);
  }

  /** The same king and the same heights; the counts may differ. */
  predicate InStep(t: Schedule, u: Schedule) {
    t.index == u.index && t.rotatedAt == u.rotatedAt && t.nextAt == u.nextAt
  }

  /** No address twice, and none of them the one that stands for no account. */
  predicate Distinct(kings: seq<Address>) {
    kings == [] || (kings[0] != NO_ADDRESS && kings[0] !in kings[1..] && Distinct(kings[1..]))
  }

  /**
   * A node in any state `t` at height `from` that processes the blocks up to height `last` of a chain that keeps to
   * the schedule of `s`: the block on height h names the king there of a node that is on time.
   */
  ghost function ProcessedAll(t: Schedule, cfg: Config, s: Schedule, from: nat, last: nat): Schedule
    decreases last
  {
    if last <= from then t
    else
      Processed(ProcessedAll(t, cfg, s, from, last - 1), cfg, last, last - 1, KingOf(OnTime(s, cfg, last - 1), cfg))
  }

  /** Alignment restores agreement exactly at a rotation height, with the right position and the right count. */
  lemma ForcedAgreesIff(s: Schedule, t: Schedule, cfg: Config, index: nat, height: nat)
    requires OnSchedule(s, cfg) && s.rotatedAt <= height
    ensures var u := At(s, cfg, height);
            Forced(t, cfg, index, height) == u <==>
              index == u.index && u.rotatedAt == height && t.count + 1 == u.count
  {
    AtBounds(s, cfg, height);
  }

  // ---------- the same by list positions ----------

  /** The block on height `h` names the king of `u`; a node that holds another position is aligned. */
  function Heard(t: Schedule, cfg: Config, u: Schedule, h: nat): Schedule {
    Onward(if t.index == u.index then t else Forced(t, cfg, u.index, h), cfg, h + 1)
  }

  function HeardAll(t: Schedule, cfg: Config, s: Schedule, from: nat, last: nat): Schedule
    decreases last
  {
    if last <= from then t
    else Heard(HeardAll(t, cfg, s, from, last - 1), cfg, OnTime(s, cfg, last - 1), last - 1)
  }

  lemma {:induction false} PositionOf(kings: seq<Address>, i: nat)
    requires Distinct(kings) && i < |kings|
    ensures IndexOf(kings, kings[i]) == i && kings[i] in kings && kings[i] != NO_ADDRESS
  {
    if i > 0 {
      assert kings[1..][i - 1] == kings[i];
      PositionOf(kings[1..], i - 1);
    }
  }

  /** Different kings have different positions. */
  lemma ProcessedIsHeard(t: Schedule, cfg: Config, u: Schedule, h: nat)
    requires Distinct(cfg.kings) && t.index < |cfg.kings| && u.index < |cfg.kings|
    ensures Processed(t, cfg, h + 1, h, KingOf(u, cfg)) == Heard(t, cfg, u, h)
  {
    PositionOf(cfg.kings, t.index);
    PositionOf(cfg.kings, u.index);
  }

  lemma {:induction false} HeardInRange(t: Schedule, cfg: Config, s: Schedule, from: nat, last: nat)
    requires t.index < |cfg.kings| && OnSchedule(s, cfg) && s.rotatedAt <= from
    ensures HeardAll(t, cfg, s, from, last).index < |cfg.kings|
    decreases last
  {
    if from < last {
      HeardInRange(t, cfg, s, from, last - 1);
      OnTimeIsCurrent(s, cfg, last - 1);
    }
  }

  lemma LastProcessed(t: Schedule, cfg: Config, s: Schedule, from: nat, h: nat, front: Schedule, u: Schedule)
    requires from <= h && ProcessedAll(t, cfg, s, from, h) == front && OnTime(s, cfg, h) == u
    requires Distinct(cfg.kings) && front.index < |cfg.kings| && u.index < |cfg.kings|
    ensures ProcessedAll(t, cfg, s, from, h + 1) == Heard(front, cfg, u, h)
  {
    ProcessedIsHeard(front, cfg, u, h);
  }

  lemma {:induction false} ProcessedAllIsHeard(t: Schedule, cfg: Config, s: Schedule, from: nat, last: nat)
    requires Distinct(cfg.kings) && t.index < |cfg.kings| && OnSchedule(s, cfg) && s.rotatedAt <= from
    ensures ProcessedAll(t, cfg, s, from, last) == HeardAll(t, cfg, s, from, last)
    decreases last
  {
    if from < last {
      var h := last - 1;
      ProcessedAllIsHeard(t, cfg, s, from, h);
      HeardInRange(t, cfg, s, from, h);
      OnTimeIsCurrent(s, cfg, h);
      LastProcessed(t, cfg, s, from, h, HeardAll(t, cfg, s, from, h), OnTime(s, cfg, h));
    }
  }

  lemma {:induction false} HeardInParts(t: Schedule, cfg: Config, s: Schedule, from: nat, middle: nat, last: nat)
    requires from <= middle <= last
    ensures HeardAll(t, cfg, s, from, last) == HeardAll(HeardAll(t, cfg, s, from, middle), cfg, s, middle, last)
    decreases last
  {
    if middle < last {
      HeardInParts(t, cfg, s, from, middle, last - 1);
    }
  }

  lemma LastHeard(t: Schedule, cfg: Config, s: Schedule, from: nat, last: nat)
    requires from < last
    ensures HeardAll(t, cfg, s, from, last) ==
              Heard(HeardAll(t, cfg, s, from, last - 1), cfg, OnTime(s, cfg, last - 1), last - 1)
  {
  }

  /** In step, a node rotates when the schedule does, and its count moves along. */
  lemma HeardStays(t: Schedule, cfg: Config, u: Schedule, h: nat)
    requires Current(u, cfg, h) && InStep(t, u)
    ensures var u' := Onward(u, cfg, h + 1);
            InStep(Heard(t, cfg, u, h), u') && Heard(t, cfg, u, h).count - u'.count == t.count - u.count
  {
  }

  lemma {:induction false} InStepStays(t: Schedule, cfg: Config, s: Schedule, from: nat, last: nat)
    requires OnSchedule(s, cfg) && s.rotatedAt <= from <= last && InStep(t, OnTime(s, cfg, from))
    ensures var t' := HeardAll(t, cfg, s, from, last);
            && InStep(t', OnTime(s, cfg, last))
            && t'.count - OnTime(s, cfg, last).count == t.count - OnTime(s, cfg, from).count
    decreases last
  {
    if from < last {
      InStepStays(t, cfg, s, from, last - 1);
      OnTimeIsCurrent(s, cfg, last - 1);
      HeardStays(HeardAll(t, cfg, s, from, last - 1), cfg, OnTime(s, cfg, last - 1), last - 1);
    }
  }

  lemma NextIsOther(cfg: Config, index: nat)
    requires |cfg.kings| >= 2 && index < |cfg.kings|
    ensures Successor(cfg, index) != index
  {
  }

  /** The block at a rotation height leaves a node in step or with the king of before. */
  lemma RotationHeard(t: Schedule, cfg: Config, u: Schedule, d: nat)
    requires OnSchedule(u, cfg) && u.nextAt == d
    ensures var t' := Heard(t, cfg, u, d - 1);
            InStep(t', Rotated(u, cfg, d)) || t'.index == u.index
  {
  }

  /** A node whose king is not the scheduled one right after a rotation height is aligned by the next block. */
  lemma AfterRotationHeard(t: Schedule, cfg: Config, u: Schedule, d: nat)
    requires OnSchedule(u, cfg) && u.rotatedAt == d && t.index != u.index
    ensures var t', u' := Heard(t, cfg, u, d), Onward(u, cfg, d + 1);
            InStep(t', u') && t'.count - u'.count == t.count + 1 - u.count
  {
  }

  /** Whatever a node's state, the two blocks at and after a rotation height bring it in step. */
  lemma TwoBlocksRealign(t: Schedule, cfg: Config, u: Schedule, d: nat)
    requires |cfg.kings| >= 2 && OnSchedule(u, cfg) && u.nextAt == d
    ensures var u' := Rotated(u, cfg, d);
            InStep(Heard(Heard(t, cfg, u, d - 1), cfg, u', d), Onward(u', cfg, d + 1))
  {
    var t', u' := Heard(t, cfg, u, d - 1), Rotated(u, cfg, d);
    RotationHeard(t, cfg, u, d);
    if InStep(t', u') {
      HeardStays(t', cfg, u', d);
    } else {
      NextIsOther(cfg, u.index);
      AfterRotationHeard(t', cfg, u', d);
    }
  }

  lemma HeardRotation(t: Schedule, cfg: Config, s: Schedule, from: nat, u: Schedule, d: nat)
    requires from < d && s.rotatedAt < d && OnSchedule(u, cfg) && u.nextAt == d && |cfg.kings| >= 2
    requires OnTime(s, cfg, d - 1) == u && OnTime(s, cfg, d) == Rotated(u, cfg, d)
    ensures InStep(HeardAll(t, cfg, s, from, d + 1), OnTime(s, cfg, d + 1))
  {
    TwoBlocksRealign(HeardAll(t, cfg, s, from, d - 1), cfg, u, d);
    LastHeard(t, cfg, s, from, d);
    LastHeard(t, cfg, s, from, d + 1);
  }

  lemma RealignedStays(t: Schedule, cfg: Config, s: Schedule, from: nat, middle: nat, last: nat)
    requires OnSchedule(s, cfg) && s.rotatedAt <= middle && from <= middle <= last
    requires InStep(HeardAll(t, cfg, s, from, middle), OnTime(s, cfg, middle))
    ensures InStep(HeardAll(t, cfg, s, from, last), OnTime(s, cfg, last))
  {
    HeardInParts(t, cfg, s, from, middle, last);
    InStepStays(HeardAll(t, cfg, s, from, middle), cfg, s, middle, last);
  }

  lemma HeardRealigns(t: Schedule, cfg: Config, s: Schedule, from: nat, last: nat)
    requires OnSchedule(s, cfg) && s.rotatedAt <= from && last > OnTime(s, cfg, from).nextAt && |cfg.kings| >= 2
    ensures InStep(HeardAll(t, cfg, s, from, last), OnTime(s, cfg, last))
  {
    var u := OnTime(s, cfg, from);
    var d := u.nextAt;
    NextRotation(s, cfg, from);
    OnTimeIsCurrent(s, cfg, from);
    HeardRotation(t, cfg, s, from, u, d);
    RealignedStays(t, cfg, s, from, d + 1, last);
  }

  lemma FirstRotation(s: Schedule, cfg: Config)
    requires OnSchedule(s, cfg)
    ensures OnTime(s, cfg, s.nextAt) == Rotated(s, cfg, s.nextAt)
  {
    NextRotationOf(s, cfg, s.rotatedAt, s);
  }

  lemma SecondRotation(s: Schedule, cfg: Config, v: Schedule, d: nat)
    requires OnSchedule(s, cfg) && v == Rotated(s, cfg, s.nextAt) && d == v.nextAt
    ensures OnTime(s, cfg, d) == Rotated(v, cfg, d) && OnSchedule(v, cfg)
  {
    FirstRotation(s, cfg);
    NextRotationOf(s, cfg, s.nextAt, v);
  }

  lemma HeardIdly(t: Schedule, cfg: Config, u: Schedule, h: nat)
    requires t.index == u.index && h + 1 < t.nextAt
    ensures Heard(t, cfg, u, h) == t
  {
  }

  /** Until the schedule rotates again, no block names another king than the late node's. */
  lemma {:induction false} LateNodeWaits(s: Schedule, cfg: Config, height: nat, last: nat)
    requires OnSchedule(s, cfg) && s.nextAt < height <= last <= s.nextAt + cfg.interval
    ensures HeardAll(Rotated(s, cfg, height), cfg, s, height, last) == Rotated(s, cfg, height)
    decreases last
  {
    if height < last {
      LateNodeWaits(s, cfg, height, last - 1);
      FirstRotation(s, cfg);
      NoneDue(s, cfg, s.nextAt, last - 1);
      HeardIdly(Rotated(s, cfg, height), cfg, OnTime(s, cfg, last - 1), last - 1);
    }
  }

  lemma LateNodeDiffers(s: Schedule, cfg: Config, height: nat, last: nat)
    requires OnSchedule(s, cfg) && s.nextAt < height <= last <= s.nextAt + cfg.interval
    requires height < s.nextAt + cfg.interval
    ensures OnTime(s, cfg, last) != Rotated(s, cfg, height)
  {
    if last < s.nextAt + cfg.interval {
      FirstRotation(s, cfg);
      NoneDue(s, cfg, s.nextAt, last);
    } else {
      SecondRotation(s, cfg, Rotated(s, cfg, s.nextAt), last);
    }
  }

  /** A node one rotation behind, but with its count, is aligned in all four numbers. */
  lemma OneBehindAligned(t: Schedule, cfg: Config, v: Schedule, d: nat)
    requires |cfg.kings| >= 2 && OnSchedule(v, cfg) && t.index == v.index && t.count == v.count
    ensures Heard(t, cfg, Rotated(v, cfg, d), d) == Onward(Rotated(v, cfg, d), cfg, d + 1)
  {
    NextIsOther(cfg, v.index);
    AfterRotationHeard(t, cfg, Rotated(v, cfg, d), d);
  }

  lemma LateNodeAligned(s: Schedule, cfg: Config, height: nat)
    requires OnSchedule(s, cfg) && s.nextAt < height < s.nextAt + cfg.interval && |cfg.kings| >= 2
    ensures var d := s.nextAt + cfg.interval;
            HeardAll(Rotated(s, cfg, height), cfg, s, height, d + 1) == OnTime(s, cfg, d + 1)
  {
    var v, d := Rotated(s, cfg, s.nextAt), s.nextAt + cfg.interval;
    SecondRotation(s, cfg, v, d);
    LateNodeWaits(s, cfg, height, d);
    LastHeard(Rotated(s, cfg, height), cfg, s, height, d + 1);
    OneBehindAligned(Rotated(s, cfg, height), cfg, v, d);
  }

  lemma AgreementStays(t: Schedule, cfg: Config, s: Schedule, from: nat, middle: nat, last: nat)
    requires OnSchedule(s, cfg) && s.rotatedAt <= middle && from <= middle <= last
    requires HeardAll(t, cfg, s, from, middle) == OnTime(s, cfg, middle)
    ensures HeardAll(t, cfg, s, from, last) == OnTime(s, cfg, last)
  {
    HeardInParts(t, cfg, s, from, middle, last);
    InStepStays(OnTime(s, cfg, middle), cfg, s, middle, last);
  }

  lemma LateNodeHealsIff(s: Schedule, cfg: Config, height: nat, last: nat)
    requires OnSchedule(s, cfg) && s.nextAt < height < s.nextAt + cfg.interval && height <= last
    requires |cfg.kings| >= 2
    ensures HeardAll(Rotated(s, cfg, height), cfg, s, height, last) == OnTime(s, cfg, last) <==>
              last > s.nextAt + cfg.interval
  {
    var d := s.nextAt + cfg.interval;
    if last <= d {
      LateNodeWaits(s, cfg, height, last);
      LateNodeDiffers(s, cfg, height, last);
    } else {
      LateNodeAligned(s, cfg, height);
      AgreementStays(Rotated(s, cfg, height), cfg, s, height, d + 1, last);
    }
  }

  lemma MissedNodeHeals(s: Schedule, cfg: Config, last: nat)
    requires OnSchedule(s, cfg) && |cfg.kings| >= 2 && last > s.nextAt
    ensures HeardAll(s, cfg, s, s.nextAt, last) == OnTime(s, cfg, last)
  {
    var d := s.nextAt;
    FirstRotation(s, cfg);
    LastHeard(s, cfg, s, d, d + 1);
    OneBehindAligned(s, cfg, s, d);
    AgreementStays(s, cfg, s, d, d + 1, last);
  }

  // ---------- what blocks put right ----------

  /**
   * Self-healing: with two kings or more, a node in any state agrees with the schedule on king and heights for
   * good once it has processed the block after the next rotation, that is within interval + 1 blocks.
   */
  lemma BlocksRealign(t: Schedule, cfg: Config, s: Schedule, from: nat, last: nat)
    requires OnSchedule(s, cfg) && s.rotatedAt <= from && last > OnTime(s, cfg, from).nextAt
    requires Distinct(cfg.kings) && |cfg.kings| >= 2 && t.index < |cfg.kings|
    ensures InStep(ProcessedAll(t, cfg, s, from, last), OnTime(s, cfg, last))
    ensures OnTime(s, cfg, from).nextAt <= from + cfg.interval
  {
    NextRotation(s, cfg, from);
    ProcessedAllIsHeard(t, cfg, s, from, last);
    HeardRealigns(t, cfg, s, from, last);
  }

  /** A node that did not rotate at the due height is put right by the very next block, count included, for good. */
  lemma MissedRotationHeals(s: Schedule, cfg: Config, last: nat)
    requires OnSchedule(s, cfg) && Distinct(cfg.kings) && |cfg.kings| >= 2 && last > s.nextAt
    ensures ProcessedAll(s, cfg, s, s.nextAt, last) == OnTime(s, cfg, last)
  {
    ProcessedAllIsHeard(s, cfg, s, s.nextAt, last);
    MissedNodeHeals(s, cfg, last);
  }

  /**
   * A node that rotated late, by less than an interval, agrees again, in all four numbers, exactly from the block
   * after the schedule's next rotation on.
   */
  lemma LateRotationHealsIff(s: Schedule, cfg: Config, height: nat, last: nat)
    requires OnSchedule(s, cfg) && s.nextAt < height < s.nextAt + cfg.interval && height <= last
    requires Distinct(cfg.kings) && |cfg.kings| >= 2
    ensures ProcessedAll(Rotated(s, cfg, height), cfg, s, height, last) == OnTime(s, cfg, last) <==>
              last > s.nextAt + cfg.interval
  {
    ProcessedAllIsHeard(Rotated(s, cfg, height), cfg, s, height, last);
    LateNodeHealsIff(s, cfg, height, last);
  }

  /** With one king no block names another, and a late node follows its own schedule. */
  lemma {:induction false} OneKingNeverAligns(t: Schedule, cfg: Config, s: Schedule, from: nat, last: nat)
    requires OnSchedule(s, cfg) && s.rotatedAt <= from <= last && |cfg.kings| == 1
    requires OnSchedule(t, cfg) && t.rotatedAt == from
    ensures ProcessedAll(t, cfg, s, from, last) == OnTime(t, cfg, last)
    decreases last
  {
    if from < last {
      OneKingNeverAligns(t, cfg, s, from, last - 1);
      OnTimeIsCurrent(t, cfg, last - 1);
      OnTimeIsCurrent(s, cfg, last - 1);
      SameKingProcessed(OnTime(t, cfg, last - 1), cfg, OnTime(s, cfg, last - 1), last);
    }
  }

  lemma SameKingProcessed(t: Schedule, cfg: Config, u: Schedule, h: nat)
    requires t.index == u.index
    ensures h > 0 ==> Processed(t, cfg, h, h - 1, KingOf(u, cfg)) == Onward(t, cfg, h)
  {
  }

  /** So with one king blocks do not make good a late rotation. */
  lemma OneKingStaysLate(s: Schedule, cfg: Config, height: nat, last: nat)
    requires OnSchedule(s, cfg) && s.nextAt <= height <= last && |cfg.kings| == 1
    ensures ProcessedAll(Rotated(s, cfg, height), cfg, s, height, last) == OnTime(s, cfg, last) <==>
              height == s.nextAt
  {
    OneKingNeverAligns(Rotated(s, cfg, height), cfg, s, height, last);
    OnTimeIsAt(Rotated(s, cfg, height), cfg, last);
    OnTimeIsAt(s, cfg, last);
    LateRotationPersists(s, cfg, height, last);
  }

  // ---------- equal service ----------

  /** How many of the heights `from`, ..., `from + len - 1` position `p` serves. */
  ghost function Served(s: Schedule, cfg: Config, p: nat, from: nat, len: nat): nat
    requires OnSchedule(s, cfg) && s.rotatedAt <= from
  {
    if len == 0 then 0
    else Served(s, cfg, p, from, len - 1) + (if At(s, cfg, from + len - 1).index == p then 1 else 0)
  }

  /** Within one interval the king does not change. */
  lemma KingOfRound(s: Schedule, cfg: Config, rounds: nat, k: nat)
    requires OnSchedule(s, cfg) && k < cfg.interval
    ensures At(s, cfg, s.rotatedAt + rounds * cfg.interval + k).index == Position(cfg, s.index, rounds)
  {
    QuotientUnique(rounds * cfg.interval + k, cfg.interval, rounds, k);
  }

  lemma {:induction false} ServedInInterval(s: Schedule, cfg: Config, p: nat, rounds: nat, from: nat, len: nat)
    requires OnSchedule(s, cfg) && len <= cfg.interval && from == s.rotatedAt + rounds * cfg.interval
    ensures Served(s, cfg, p, from, len) == if Position(cfg, s.index, rounds) == p then len else 0
  {
    if len > 0 {
      ServedInInterval(s, cfg, p, rounds, from, len - 1);
      KingOfRound(s, cfg, rounds, len - 1);
      assert At(s, cfg, from + len - 1).index == Position(cfg, s.index, rounds);
    }
  }

  lemma {:induction false} ServedSplit(s: Schedule, cfg: Config, p: nat, from: nat, a: nat, b: nat)
    requires OnSchedule(s, cfg) && s.rotatedAt <= from
    ensures Served(s, cfg, p, from, a + b) == Served(s, cfg, p, from, a) + Served(s, cfg, p, from + a, b)
    decreases b
  {
    if b > 0 {
      ServedSplit(s, cfg, p, from, a, b - 1);
      assert a + (b - 1) == a + b - 1;
      assert from + a + (b - 1) == from + (a + b) - 1;
    }
  }

  lemma PositionOnce(cfg: Config, index: nat, q: nat)
    requires index < |cfg.kings| && q < |cfg.kings|
    ensures Position(cfg, index, q) == if index + q < |cfg.kings| then index + q else index + q - |cfg.kings|
  {
    var n := |cfg.kings|;
    if index + q < n {
      QuotientUnique(index + q, n, 0, index + q);
    } else {
      QuotientUnique(index + q, n, 1, index + q - n);
    }
  }

  /** How long after `index` the turn of position `p` comes. */
  function TurnOf(cfg: Config, index: nat, p: nat): (d: nat)
    requires index < |cfg.kings| && p < |cfg.kings|
    ensures d < |cfg.kings|
  {
    if p >= index then p - index else p + |cfg.kings| - index
  }

  lemma OneRoundMore(rounds: nat, i: nat)
    requires rounds > 0
    ensures (rounds - 1) * i + i == rounds * i
  {
  }

  lemma TurnComes(cfg: Config, index: nat, p: nat, q: nat)
    requires index < |cfg.kings| && p < |cfg.kings| && q < |cfg.kings|
    ensures Position(cfg, index, q) == p <==> q == TurnOf(cfg, index, p)
  {
    PositionOnce(cfg, index, q);
  }

  /** In the first `rounds` intervals a position has served its one interval, or not yet. */
  lemma {:induction false} ServedInRounds(s: Schedule, cfg: Config, p: nat, rounds: nat, len: nat)
    requires OnSchedule(s, cfg) && p < |cfg.kings| && rounds <= |cfg.kings| && len == rounds * cfg.interval
    ensures Served(s, cfg, p, s.rotatedAt, len) == if TurnOf(cfg, s.index, p) < rounds then cfg.interval else 0
  {
    if rounds > 0 {
      var i := cfg.interval;
      var front := (rounds - 1) * i;
      OneRoundMore(rounds, i);
      ServedInRounds(s, cfg, p, rounds - 1, front);
      ServedInInterval(s, cfg, p, rounds - 1, s.rotatedAt + front, i);
      ServedSplit(s, cfg, p, s.rotatedAt, front, i);
      TurnComes(cfg, s.index, p, rounds - 1);
    }
  }

  lemma PositionRepeats(cfg: Config, index: nat, q: nat)
    requires cfg.kings != []
    ensures Position(cfg, index, q + |cfg.kings|) == Position(cfg, index, q)
  {
    var n, a := |cfg.kings|, index + q;
    assert a + n == n * (a / n + 1) + a % n;
    QuotientUnique(a + n, n, a / n + 1, a % n);
  }

  lemma QuotientShift(d: nat, i: nat, n: nat)
    requires i > 0
    ensures (d + n * i) / i == d / i + n
  {
    var q, r := d / i, d % i;
    assert d + n * i == i * (q + n) + r;
    QuotientUnique(d + n * i, i, q + n, r);
  }

  /** The schedule repeats after every position has had its interval. */
  lemma IndexRepeats(s: Schedule, cfg: Config, height: nat)
    requires OnSchedule(s, cfg) && s.rotatedAt <= height
    ensures At(s, cfg, height + |cfg.kings| * cfg.interval).index == At(s, cfg, height).index
  {
    var d, shift := height - s.rotatedAt, |cfg.kings| * cfg.interval;
    QuotientShift(d, cfg.interval, |cfg.kings|);
    assert (height + shift - s.rotatedAt) / cfg.interval == d / cfg.interval + |cfg.kings|;
    PositionRepeats(cfg, s.index, d / cfg.interval);
  }

  /** Over any stretch of |kings| * interval heights, wherever it starts, each position serves one interval. */
  lemma {:induction false} EveryPositionServesEqually(s: Schedule, cfg: Config, p: nat, from: nat)
    requires OnSchedule(s, cfg) && s.rotatedAt <= from && p < |cfg.kings|
    ensures Served(s, cfg, p, from, |cfg.kings| * cfg.interval) == cfg.interval
    decreases from
  {
    var len := |cfg.kings| * cfg.interval;
    if from == s.rotatedAt {
      ServedInRounds(s, cfg, p, |cfg.kings|, len);
    } else {
      EveryPositionServesEqually(s, cfg, p, from - 1);
      ServedSplit(s, cfg, p, from - 1, 1, len);
      ServedSplit(s, cfg, p, from - 1, len, 1);
      IndexRepeats(s, cfg, from - 1);
      assert Served(s, cfg, p, from - 1, 0) == 0;
      assert Served(s, cfg, p, from - 1 + len, 0) == 0;
    }
  }

  // ---------- the rotation log ----------

  function Remember(history: seq<Rotation>, rotation: Rotation): seq<Rotation> {
    var longer := history + [rotation];
    if |longer| > HISTORY_LIMIT then longer[1..] else longer
  }

  /** The log ends on the new entry and keeps the ninety-nine before it, or all of fewer. */
  lemma RememberKeeps(history: seq<Rotation>, rotation: Rotation)
    ensures |history| < 100 ==> Remember(history, rotation) == history + [rotation]
    ensures |history| == 100 ==> Remember(history, rotation) == history[1..] + [rotation]
  {
  }

  predicate HandsOver(a: Rotation, b: Rotation, interval: nat) {
    a.next == b.previous && a.height + interval <= b.height
  }

  ghost predicate Linked(history: seq<Rotation>, interval: nat) {
    forall a, b {:trigger history[a], history[b]} | 0 <= a && b == a + 1 < |history| ::
      HandsOver(history[a], history[b], interval)
  }

  predicate Names(history: seq<Rotation>, s: Schedule, cfg: Config) {
    history != [] && s.index < |cfg.kings| ==>
      var last := history[|history| - 1];
      last.next == cfg.kings[s.index] && last.height == s.rotatedAt
  }

  /** Each entry hands over to the next, at least an interval later, and the last one names the present king. */
  ghost predicate LogReplays(history: seq<Rotation>, s: Schedule, cfg: Config) {
    |history| <= HISTORY_LIMIT && Linked(history, cfg.interval) && Names(history, s, cfg)
  }

  lemma RememberLinks(history: seq<Rotation>, rotation: Rotation, interval: nat)
    requires Linked(history, interval)
    requires history != [] ==> HandsOver(history[|history| - 1], rotation, interval)
    ensures Linked(Remember(history, rotation), interval)
  {
  }

  /** What a log that replays says of two neighbouring entries and of the present king. */
  lemma LogMeans(history: seq<Rotation>, s: Schedule, cfg: Config, i: nat)
    requires LogReplays(history, s, cfg) && i < |history| && s.index < |cfg.kings|
    ensures if i == |history| - 1
            then history[i].next == cfg.kings[s.index] && history[i].height == s.rotatedAt
            else history[i].next == history[i + 1].previous && history[i].height + cfg.interval <= history[i + 1].height
  {
    if i + 1 < |history| {
      assert HandsOver(history[i], history[i + 1], cfg.interval);
    }
  }

  lemma RememberReplays(history: seq<Rotation>, s: Schedule, cfg: Config, height: nat, wasEligible: bool)
    requires OnSchedule(s, cfg) && Due(s, cfg, height) && LogReplays(history, s, cfg)
    ensures var t := Rotated(s, cfg, height);
            LogReplays(Remember(history, Rotation(height, cfg.kings[s.index], cfg.kings[t.index], wasEligible)), t, cfg)
  {
    var t := Rotated(s, cfg, height);
    RememberLinks(history, Rotation(height, cfg.kings[s.index], cfg.kings[t.index], wasEligible), cfg.interval);
  }

  /** Alignment writes no log entry, so an old log no longer names the present king. */
  lemma ForcedLogReplaysIff(history: seq<Rotation>, s: Schedule, cfg: Config, index: nat, height: nat)
    requires OnSchedule(s, cfg) && LogReplays(history, s, cfg)
    requires index < |cfg.kings| && cfg.kings[index] != cfg.kings[s.index]
    ensures LogReplays(history, Forced(s, cfg, index, height), cfg) <==> history == []
  {
  }

  predicate Forces(s: Schedule, cfg: Config, op: Op) {
    op.Validated? && Aligned(s, cfg, op.chainHeight, op.king) != s
  }

  ghost predicate SomeForces(s: Schedule, cfg: Config, ops: seq<Op>) {
    ops != [] &&
    (SomeForces(s, cfg, ops[..|ops| - 1]) || Forces(Run(s, cfg, ops[..|ops| - 1]), cfg, ops[|ops| - 1]))
  }

  class Manager {
    const config: Config
    var currentKingIndex: nat
    var rotationHeight: nat
    var nextRotationAt: nat
    var rotationCount: nat
    var kingsHistory: seq<Rotation>

    ghost function View(): Schedule
      reads this
    {
      Schedule(currentKingIndex, rotationHeight, nextRotationAt, rotationCount)
    }

    /** The index is in range; an empty list never moves it. */
    ghost predicate Valid()
      reads this
    {
      (config.kings != [] ==> currentKingIndex < |config.kings|) && |kingsHistory| <= HISTORY_LIMIT
    }

    constructor (config: Config)
      ensures Valid() && this.config == config
      ensures View() == Schedule(0, 0, config.interval, 0) && kingsHistory == []
    {
      this.config := config;
      currentKingIndex, rotationHeight, nextRotationAt, rotationCount := 0, 0, config.interval, 0;
      kingsHistory := [];
    }

    method GetCurrentKing() returns (king: Address)
      requires Valid()
      ensures king == if config.kings == [] then NO_ADDRESS else config.kings[currentKingIndex]
    {
      if |config.kings| == 0 {
        return NO_ADDRESS;
      }
      king := config.kings[currentKingIndex];
    }

    predicate ShouldRotate(height: nat)
      reads this
    {
      height >= nextRotationAt
    }

    /** The part rotateToNextKingInternal and RotateToNextKing share, once the rotation is decided. */
    method Rotate(height: nat, balanceOf: Address -> int)
      requires Valid() && config.kings != []
      modifies this
      ensures Valid() && View() == Rotated(old(View()), config, height)
      ensures var king := config.kings[currentKingIndex];
              kingsHistory == Remember(old(kingsHistory),
                                       Rotation(height, config.kings[old(currentKingIndex)], king,
                                                balanceOf(king) >= config.minStake))
      ensures (OnSchedule(old(View()), config) && Due(old(View()), config, height)
               && LogReplays(old(kingsHistory), old(View()), config))
              ==> LogReplays(kingsHistory, View(), config)
    {
      var previousKing := config.kings[currentKingIndex];
      SuccessorIsPosition(config, currentKingIndex);
      var newIndex := (currentKingIndex + 1) % |config.kings|;
      var newKing := config.kings[newIndex];
      var isEligible := balanceOf(newKing) >= config.minStake;
      ghost var before, log := View(), kingsHistory;
      kingsHistory := kingsHistory + [Rotation(height, previousKing, newKing, isEligible)];
      if |kingsHistory| > HISTORY_LIMIT {
        kingsHistory := kingsHistory[1..];
      }
      currentKingIndex := newIndex;
      rotationHeight := height;
      nextRotationAt := height + config.interval;
      rotationCount := rotationCount + 1;
      if OnSchedule(before, config) && Due(before, config, height) && LogReplays(log, before, config) {
        RememberReplays(log, before, config, height, isEligible);
      }
    }

    /** Looks for the next king with enough stake; the caller does not use the answer. */
    method NextEligible(balanceOf: Address -> int) returns (index: nat)
      requires Valid() && config.kings != []
      ensures index < |config.kings|
      ensures var successor := Position(config, currentKingIndex, 1);
              if balanceOf(config.kings[index]) < config.minStake
              then index == successor &&
                   forall i :: 1 <= i < |config.kings| ==>
                     balanceOf(config.kings[Position(config, currentKingIndex, i)]) < config.minStake
              else exists i :: 1 <= i <= |config.kings| && index == Position(config, currentKingIndex, i)
    {
      index := Position(config, currentKingIndex, 1);
      if balanceOf(config.kings[index]) < config.minStake {
        for i := 1 to |config.kings|
          invariant index == Position(config, currentKingIndex, 1)
          invariant forall j :: 1 <= j < i ==>
              balanceOf(config.kings[Position(config, currentKingIndex, j)]) < config.minStake
        {
          var candidate := Position(config, currentKingIndex, i);
          if balanceOf(config.kings[candidate]) >= config.minStake {
            index := candidate;
            break;
          }
        }
      }
    }

    /**
     * Rotates when due and agreed. Whatever the balances, the successor in the list becomes king, and a failed
     * save is reported although the rotation has happened.
     */
    method RotateToNextKing(height: nat, consensus: Consensus, balanceOf: Address -> int, saved: bool)
      returns (r: Result<(), RotateError>)
      requires Valid()
      modifies this
      ensures Valid()
      ensures var rotates := Due(old(View()), config, height) && (consensus.NoBroadcaster? || consensus.Agreed?);
              && View() == (if rotates then Rotated(old(View()), config, height) else old(View()))
              && (!rotates ==> kingsHistory == old(kingsHistory))
              && r == (if config.kings == [] then Err(NoKings)
                       else if height < old(nextRotationAt) then Err(NotDue(old(nextRotationAt)))
                       else if consensus.CheckFailed? then Err(ConsensusCheckFailed)
                       else if consensus.Disagreed? then Err(NoConsensus)
                       else if !saved then Err(StateNotSaved)
                       else Ok(()))
      ensures OnSchedule(old(View()), config) && LogReplays(old(kingsHistory), old(View()), config) ==>
                LogReplays(kingsHistory, View(), config)
    {
      if |config.kings| == 0 {
        return Err(NoKings);
      }
      if height < nextRotationAt {
        return Err(NotDue(nextRotationAt));
      }
      if consensus == CheckFailed {
        return Err(ConsensusCheckFailed);
      }
      if consensus == Disagreed {
        return Err(NoConsensus);
      }
      var _ := NextEligible(balanceOf);
      Rotate(height, balanceOf);
      return if saved then Ok(()) else Err(StateNotSaved);
    }

    /** Makes a listed address king at the chain's height. A failed save is reported after the change. */
    method ForceRotateToAddress(newKing: Address, chainHeight: nat, saved: bool) returns (r: Result<(), RotateError>)
      requires Valid()
      modifies this
      ensures Valid() && kingsHistory == old(kingsHistory)
      ensures View() == if newKing in config.kings
                        then Forced(old(View()), config, IndexOf(config.kings, newKing), chainHeight)
                        else old(View())
      ensures r == if newKing !in config.kings then Err(UnknownKing)
                   else if !saved then Err(StateNotSaved)
                   else Ok(())
    {
      var index: int := -1;
      for i := 0 to |config.kings|
        invariant index == -1 && forall j :: 0 <= j < i ==> config.kings[j] != newKing
      {
        if config.kings[i] == newKing {
          index := i;
          break;
        }
      }
      if index == -1 {
        return Err(UnknownKing);
      }
      currentKingIndex := index;
      rotationHeight := chainHeight;
      nextRotationAt := chainHeight + config.interval;
      rotationCount := rotationCount + 1;
      return if saved then Ok(()) else Err(StateNotSaved);
    }

    /**
     * After a validated block: align with the king it paid, then rotate if due. An alignment that fails, or that
     * cannot be saved, ends the step before the rotation.
     */
    method ProcessRotatingKingForBlock(height: nat, chainHeight: nat, king: Address, forcedSaved: bool,
                                       consensus: Consensus, balanceOf: Address -> int, saved: bool)
      returns (r: Result<(), RotateError>)
      requires Valid()
      modifies this
      ensures Valid()
      ensures var aligned := Aligned(old(View()), config, chainHeight, king);
              var misaligned := Misaligned(old(View()), config, king);
              var votes := consensus.NoBroadcaster? || consensus.Agreed?;
              if misaligned && king !in config.kings then View() == old(View()) && r == Err(UnknownKing)
              else if misaligned && !forcedSaved then View() == aligned && r == Err(StateNotSaved)
              else if height < aligned.nextAt then View() == aligned && r == Ok(())
              else if config.kings == [] then View() == aligned && r == Err(NoKings)
              else if !votes then
                View() == aligned && r == Err(if consensus.CheckFailed? then ConsensusCheckFailed else NoConsensus)
              else
                && View() == Rotated(aligned, config, height)
                && r == (if saved then Ok(()) else Err(StateNotSaved))
      ensures forcedSaved && (consensus.NoBroadcaster? || consensus.Agreed?) ==>
                View() == Processed(old(View()), config, height, chainHeight, king)
      ensures OnSchedule(old(View()), config) && LogReplays(old(kingsHistory), old(View()), config)
              && Aligned(old(View()), config, chainHeight, king) == old(View()) ==>
                LogReplays(kingsHistory, View(), config)
    {
      var currentKing := GetCurrentKing();
      if king != NO_ADDRESS && king != currentKing {
        r := ForceRotateToAddress(king, chainHeight, forcedSaved);
        if r.Err? {
          return;
        }
      }
      r := Ok(());
      if ShouldRotate(height) {
        r := RotateToNextKing(height, consensus, balanceOf, saved);
      }
    }

    /** Goes through the heights from the last rotation to the target, until the context is done at `cancelAt`. */
    method SyncRotationsToHeight(target: nat, chainHeight: nat, cancelAt: nat, blocks: set<nat>,
                                 balanceOf: Address -> int)
      returns (completed: bool)
      requires Valid()
      modifies this
      ensures Valid()
      ensures View() == Step(old(View()), config, CatchUp(target, chainHeight, cancelAt, blocks))
      ensures completed <==>
                || target < cancelAt || chainHeight < cancelAt || target == 0 || chainHeight == 0
                || target < old(rotationHeight) || chainHeight < old(rotationHeight)
      ensures OnSchedule(old(View()), config) && LogReplays(old(kingsHistory), old(View()), config) ==>
                LogReplays(kingsHistory, View(), config)
    {
      var last := Min(target, chainHeight);
      var start := CatchUpStart(rotationHeight);
      var height := start;
      while height <= last
        invariant height >= start && (height > start ==> height <= last + 1 && height <= cancelAt)
        invariant Valid() && View() == VisitAll(old(View()), config, start, height, blocks)
        invariant OnSchedule(old(View()), config) && LogReplays(old(kingsHistory), old(View()), config) ==>
            OnSchedule(View(), config) && LogReplays(kingsHistory, View(), config)
      {
        if height >= cancelAt {
          VisitNone(old(View()), config, start, height, CatchUpEnd(target, chainHeight, cancelAt), blocks);
          return false;
        }
        if height >= nextRotationAt && height in blocks && |config.kings| != 0 {
          Rotate(height, balanceOf);
        }
        height := height + 1;
      }
      completed := true;
      VisitNone(old(View()), config, start, height, CatchUpEnd(target, chainHeight, cancelAt), blocks);
    }

    /** Runs rotations, validated blocks and catch-ups in any order, from any state reached on schedule. */
    method Follow(ops: seq<Op>, start: nat, balanceOf: Address -> int)
      requires Valid() && OnSchedule(View(), config)
      modifies this
      ensures Valid() && View() == Run(old(View()), config, ops)
      ensures old(rotationHeight) <= start < old(nextRotationAt) && RunOrderly(old(View()), config, start, ops) ==>
                View() == At(old(View()), config, Frontier(start, ops))
      ensures LogReplays(old(kingsHistory), old(View()), config) && !SomeForces(old(View()), config, ops) ==>
                LogReplays(kingsHistory, View(), config)
    {
      for i := 0 to |ops|
        invariant Valid() && OnSchedule(View(), config) && View() == Run(old(View()), config, ops[..i])
        invariant LogReplays(old(kingsHistory), old(View()), config) && !SomeForces(old(View()), config, ops[..i]) ==>
            LogReplays(kingsHistory, View(), config)
      {
        assert ops[..i + 1][..i] == ops[..i];
        StepOnSchedule(View(), config, ops[i]);
        match ops[i]
        case NewBlock(height) =>
          if ShouldRotate(height) {
            var _ := RotateToNextKing(height, NoBroadcaster, balanceOf, true);
          }
        case Validated(height, chainHeight, king) =>
          var _ := ProcessRotatingKingForBlock(height, chainHeight, king, true, NoBroadcaster, balanceOf, true);
        case CatchUp(target, top, cancelAt, blocks) =>
          var _ := SyncRotationsToHeight(target, top, cancelAt, blocks, balanceOf);
      }
      assert ops[..|ops|] == ops;
      if old(rotationHeight) <= start < old(nextRotationAt) && RunOrderly(old(View()), config, start, ops) {
        RunFollowsAt(old(View()), config, start, ops);
      }
    }
  }
}
