/** Lock rows over time: acquire, release, refresh, the clock, holders dying, and tool
    calls opening, closing and going missing. Every statement holds for any file
    system case folding. */
module Leases {
  import opened Options
  import opened Text
  import opened Paths
  import opened Territory

  datatype Key = Key(target: Path, owner: string, worktree: string)

  /** holder is the process the row is stamped with. */
  datatype Row = Row(expires: int, holder: nat)

  /** posted: its post landed; ended: a sweep gave it up; missing: flagged overdue. */
  datatype Call = Call(owner: string, pre: int, posted: bool, ended: bool, missing: bool)

  datatype Folding = Folding(caseFold: bool, lower: string -> string)

  datatype Locks = Locks(now: int, rows: map<Key, Row>, calls: map<nat, Call>, dead: set<nat>)

  /** One lock asked for, and the same owner's worktree-less row it may take over. */
  datatype Request = Request(key: Key, adopt: Option<Key>)

  datatype Step =
    | Tick(passed: nat)
    | Die(holder: nat)
    | Acquire(requests: seq<Request>, expires: int, holder: nat, dying: set<nat>)
    | Delete(keys: set<Key>)
    | Refresh(keys: set<Key>, ttl: nat)
    | Open(call: nat, owner: string, touched: set<Key>)
    | Post(call: nat, touched: set<Key>)
    | Flag(call: nat)
    | End(call: nat)

  const START := Locks(0, map[], map[], {})

  /** DegradedModeTTL, in nanoseconds: half an hour. */
  const LEASE: int := 30 * 60 * 1_000_000_000

  predicate OpenCall(c: Call, owner: string, expires: int) {
    c.owner == owner && !c.posted && !c.ended && !c.missing && c.pre < expires
  }

  /** A call the owner has open, not yet flagged, that began before the row lapsed. */
  predicate InFlight(l: Locks, k: Key)
    requires k in l.rows
  {
    exists c | c in l.calls :: OpenCall(l.calls[c], k.owner, l.rows[k].expires)
  }

  function RecordOf(l: Locks, k: Key): Record
    requires k in l.rows
  {
    Record(k.target, k.owner, k.worktree, l.rows[k].expires, InFlight(l, k), l.rows[k].holder)
  }

  /** Death is permanent, and only a positive answer counts. */
  function Probe(dead: set<nat>): (probe: Record -> Liveness) {
    (r: Record) => if r.holder in dead then Dead else Unknown
  }

  function ContextAt(l: Locks, dead: set<nat>, f: Folding): Context {
    Context(l.now, Some(Probe(dead)), f.caseFold, f.lower)
  }

  predicate Stale(l: Locks, k: Key, dead: set<nat>, f: Folding)
    requires k in l.rows
  {
    ContextAt(l, dead, f).IsStale(RecordOf(l, k))
  }

  /** Two rows that may not both be live: different actors, worktrees that may be the
      same, overlapping territory. */
  predicate Contends(a: Key, b: Key, f: Folding) {
    a.owner != b.owner && SameWorktree(a.worktree, b.worktree) &&
    Context(0, None, f.caseFold, f.lower).PrefixCovers(b.target, a.target)
  }

  predicate ContendsWithAny(k: Key, requests: seq<Request>, f: Folding) {
    exists i | 0 <= i < |requests| :: Contends(requests[i].key, k, f)
  }

  /** The rows an acquire sweeps away: stale ones that contend with a request. */
  function Reclaimed(l: Locks, requests: seq<Request>, f: Folding): set<Key> {
    set k | k in l.rows && ContendsWithAny(k, requests, f) && Stale(l, k, l.dead, f)
  }

  /** A request as the conflict rule reads it. */
  function Asked(k: Key): Record {
    Record(k.target, k.owner, k.worktree, 0, false, 0)
  }

  /** A row that blocks: not stale on the first look, and still in conflict on the
      second. Holders in dying die between the two. */
  predicate Blocks(l: Locks, k: Key, requests: seq<Request>, dying: set<nat>, f: Folding)
    requires k in l.rows
  {
    && !Stale(l, k, l.dead, f)
    && exists i | 0 <= i < |requests| ::
      Contends(requests[i].key, k, f) && ContextAt(l, l.dead + dying, f).Conflicts(Asked(requests[i].key), RecordOf(l, k))
  }

  predicate MayAdopt(l: Locks, r: Request) {
    r.adopt.Some? ==> r.adopt.value in l.rows && r.adopt.value.owner == r.key.owner && r.adopt.value.worktree == ""
  }

  function Grant(rows: map<Key, Row>, requests: seq<Request>, row: Row): map<Key, Row> {
    if |requests| == 0 then rows
    else
      var r := requests[|requests| - 1];
      var before := Grant(rows, requests[..|requests| - 1], row);
      var kept := if r.adopt.Some? && r.key !in before then before - {r.adopt.value} else before;
      kept[r.key := row]
  }

  /** One owner a batch, as every caller builds it. */
  predicate OneOwner(requests: seq<Request>) {
    forall i, j | 0 <= i < |requests| && 0 <= j < |requests| :: requests[i].key.owner == requests[j].key.owner
  }

  predicate MayTake(l: Locks, step: Step) {
    match step
    case Acquire(requests, _, holder, dying) =>
      && OneOwner(requests) && holder !in l.dead && holder !in dying
      && forall i | 0 <= i < |requests| :: Territorial(requests[i].key.target) && MayAdopt(l, requests[i])
    case Open(c, _, _) => c !in l.calls
    case Post(c, _) => c in l.calls && !l.calls[c].posted
    case Flag(c) => c in l.calls && !l.calls[c].posted && !l.calls[c].ended
    case End(c) => c in l.calls && !l.calls[c].posted && !l.calls[c].ended
    case _ => true
  }

  /** Extend the rows among keys that satisfy the statement's own WHERE clause. */
  function Extended(rows: map<Key, Row>, keys: set<Key>, since: int, below: int, expires: int): map<Key, Row> {
    map k | k in rows ::
      if k in keys && since < rows[k].expires < below then Row(expires, rows[k].holder) else rows[k]
  }

  /** AcquireLocks, and everything else that moves a row. */
  function Next(l: Locks, step: Step, f: Folding): Locks {
    if !MayTake(l, step) then l
    else
      match step
      case Tick(passed) => l.(now := l.now + passed)
      case Die(h) => l.(dead := l.dead + {h})
      case Acquire(requests, expires, holder, dying) =>
        var after := l.(dead := l.dead + dying);
        if exists k | k in l.rows :: Blocks(l, k, requests, dying, f) then after
        else after.(rows := Grant(l.rows - Reclaimed(l, requests, f), requests, Row(expires, holder)))
      case Delete(keys) => l.(rows := l.rows - keys)
      case Refresh(keys, ttl) =>
        l.(rows := map k | k in l.rows ::
          if k in keys && l.rows[k].expires > l.now then Row(l.now + ttl, l.rows[k].holder) else l.rows[k])
      case Open(c, owner, touched) =>
        var mine := set k | k in touched && k.owner == owner;
        l.(rows := Extended(l.rows, mine, l.now, l.now + LEASE / 2, l.now + LEASE), calls := l.calls[c := Call(owner, l.now, false, false, false)])
      case Post(c, touched) =>
        var call := l.calls[c];
        var mine := set k | k in touched && k.owner == call.owner;
        l.(rows := Extended(l.rows, mine, call.pre, l.now + LEASE / 2, l.now + LEASE), calls := l.calls[c := call.(posted := true, missing := false)])
      case Flag(c) => l.(calls := l.calls[c := l.calls[c].(missing := true)])
      case End(c) => l.(calls := l.calls[c := l.calls[c].(ended := true)])
  }

  function Run(steps: seq<Step>, f: Folding): Locks {
    if |steps| == 0 then START else Next(Run(steps[..|steps| - 1], f), steps[|steps| - 1], f)
  }

  // --- mutual exclusion -----------------------------------------------------

  lemma ContendsSymmetric(a: Key, b: Key, f: Folding)
    ensures Contends(a, b, f) <==> Contends(b, a, f)
  {
  }

  /** Contending rows stand side by side only when one of their holders is dead. */
  ghost predicate Exclusive(rows: map<Key, Row>, dead: set<nat>, f: Folding) {
    forall a, b :: a in rows && b in rows && Contends(a, b, f) ==> rows[a].holder in dead || rows[b].holder in dead
  }

  /** A row that contends with what is asked for, and is stale on neither look, blocks. */
  lemma BlocksUnlessStale(l: Locks, k: Key, requests: seq<Request>, dying: set<nat>, f: Folding)
    requires k in l.rows && ContendsWithAny(k, requests, f) && !Stale(l, k, l.dead, f) && !Stale(l, k, l.dead + dying, f)
    ensures Blocks(l, k, requests, dying, f)
  {
    var i :| 0 <= i < |requests| && Contends(requests[i].key, k, f);
    ConflictsExactly(ContextAt(l, l.dead + dying, f), Asked(requests[i].key), RecordOf(l, k));
  }

  /** A row left standing beside what is granted: its holder died meanwhile. */
  lemma LeftStandingIsDead(l: Locks, requests: seq<Request>, dying: set<nat>, k: Key, f: Folding)
    requires k in l.rows && k !in Reclaimed(l, requests, f) && !Blocks(l, k, requests, dying, f)
    requires ContendsWithAny(k, requests, f)
    ensures l.rows[k].holder in l.dead + dying
  {
    if !Stale(l, k, l.dead + dying, f) && !Stale(l, k, l.dead, f) {
      BlocksUnlessStale(l, k, requests, dying, f);
    }
  }

  predicate Requested(requests: seq<Request>, k: Key) {
    exists i | 0 <= i < |requests| :: requests[i].key == k
  }

  /** What a grant leaves: the requested keys with the new row, others as they were. */
  lemma {:induction false} Granted(rows: map<Key, Row>, requests: seq<Request>, row: Row)
    ensures forall k :: k in Grant(rows, requests, row) ==>
      (Requested(requests, k) && Grant(rows, requests, row)[k] == row) || (k in rows && Grant(rows, requests, row)[k] == rows[k])
  {
    if |requests| > 0 {
      var front := requests[..|requests| - 1];
      Granted(rows, front, row);
      assert requests[|requests| - 1].key == requests[|requests| - 1].key && Requested(requests, requests[|requests| - 1].key);
      forall k | Requested(front, k) ensures Requested(requests, k) {
        var i :| 0 <= i < |front| && front[i].key == k;
        assert requests[i].key == k;
      }
    }
  }

  lemma SameOwnerNeverContends(requests: seq<Request>, a: Key, b: Key, f: Folding)
    requires OneOwner(requests) && Requested(requests, a) && Requested(requests, b)
    ensures !Contends(a, b, f)
  {
  }

  lemma RequestedContends(requests: seq<Request>, a: Key, b: Key, f: Folding)
    requires Requested(requests, a) && Contends(a, b, f)
    ensures ContendsWithAny(b, requests, f)
  {
    var i :| 0 <= i < |requests| && requests[i].key == a;
    assert Contends(requests[i].key, b, f);
  }

  /** The heart of it: whatever an acquire leaves contending has a dead side. */
  lemma AcquireKeeps(l: Locks, requests: seq<Request>, row: Row, dying: set<nat>, f: Folding)
    requires Exclusive(l.rows, l.dead, f) && OneOwner(requests)
    requires forall k :: k in l.rows ==> !Blocks(l, k, requests, dying, f)
    ensures Exclusive(Grant(l.rows - Reclaimed(l, requests, f), requests, row), l.dead + dying, f)
  {
    var base := l.rows - Reclaimed(l, requests, f);
    var rows := Grant(base, requests, row);
    Granted(base, requests, row);
    forall a, b | a in rows && b in rows && Contends(a, b, f)
      ensures rows[a].holder in l.dead + dying || rows[b].holder in l.dead + dying
    {
      ContendsSymmetric(a, b, f);
      if Requested(requests, a) {
        if Requested(requests, b) { SameOwnerNeverContends(requests, a, b, f); }
        RequestedContends(requests, a, b, f);
        LeftStandingIsDead(l, requests, dying, b, f);
      } else if Requested(requests, b) {
        RequestedContends(requests, b, a, f);
        LeftStandingIsDead(l, requests, dying, a, f);
      }
    }
  }

  lemma NextKeeps(l: Locks, step: Step, f: Folding)
    requires Exclusive(l.rows, l.dead, f)
    ensures Exclusive(Next(l, step, f).rows, Next(l, step, f).dead, f)
  {
    if MayTake(l, step) && step.Acquire? {
      if !exists k | k in l.rows :: Blocks(l, k, step.requests, step.dying, f) {
        AcquireKeeps(l, step.requests, Row(step.expires, step.holder), step.dying, f);
      }
    }
  }

  lemma {:induction false} RunKeeps(steps: seq<Step>, f: Folding)
    ensures Exclusive(Run(steps, f).rows, Run(steps, f).dead, f)
  {
    if |steps| > 0 {
      RunKeeps(steps[..|steps| - 1], f);
      NextKeeps(Run(steps[..|steps| - 1], f), steps[|steps| - 1], f);
    }
  }

  /** A live hold: its holder is not known dead, and it has not lapsed, unless a call
      its owner has open, begun before the lapse and not overdue, carries it on. */
  predicate Live(l: Locks, k: Key) {
    && k in l.rows && l.rows[k].holder !in l.dead
    && (l.now < l.rows[k].expires
        || exists c | c in l.calls ::
             && l.calls[c].owner == k.owner && l.calls[c].pre < l.rows[k].expires
             && !l.calls[c].posted && !l.calls[c].ended && !l.calls[c].missing)
  }

  lemma LiveExactly(l: Locks, k: Key, f: Folding)
    requires k in l.rows
    ensures Live(l, k) <==> !Stale(l, k, l.dead, f)
  {
    var expires := l.rows[k].expires;
    forall c | c in l.calls
      ensures OpenCall(l.calls[c], k.owner, expires) <==>
        (l.calls[c].owner == k.owner && l.calls[c].pre < expires
          && !l.calls[c].posted && !l.calls[c].ended && !l.calls[c].missing)
    {
    }
  }

  /** Mutual exclusion over every run: two live holds of different actors, in
      worktrees that may be the same, never overlap, case folded or not. A hold with no
      worktree may be in any. */
  lemma LiveHoldsNeverOverlap(steps: seq<Step>, f: Folding, a: Key, b: Key)
    requires Live(Run(steps, f), a) && Live(Run(steps, f), b) && a.owner != b.owner
    requires a.worktree == "" || b.worktree == "" || a.worktree == b.worktree
    ensures !PrefixOverlaps(a.target, b.target)
    ensures f.caseFold ==> !PrefixOverlaps(f.lower(a.target), f.lower(b.target))
  {
    RunKeeps(steps, f);
    LiveExactly(Run(steps, f), a, f);
    LiveExactly(Run(steps, f), b, f);
    ContendsSymmetric(a, b, f);
  }

  // --- what an acquire does -------------------------------------------------

  /** Another actor's row on territory a request asks for, in a worktree that may be the
      same, case folded or not. */
  predicate StandsIn(k: Key, asked: Key, f: Folding) {
    && k.owner != asked.owner
    && (k.worktree == "" || asked.worktree == "" || k.worktree == asked.worktree)
    && (PrefixOverlaps(k.target, asked.target) || (f.caseFold && PrefixOverlaps(f.lower(k.target), f.lower(asked.target))))
  }

  predicate StandsInAny(k: Key, requests: seq<Request>, f: Folding) {
    exists i | 0 <= i < |requests| :: StandsIn(k, requests[i].key, f)
  }

  lemma StandsInExactly(k: Key, asked: Key, f: Folding)
    ensures StandsIn(k, asked, f) <==> Contends(asked, k, f)
  {
  }

  lemma StandsInAnyExactly(k: Key, requests: seq<Request>, f: Folding)
    ensures StandsInAny(k, requests, f) <==> ContendsWithAny(k, requests, f)
  {
    forall i | 0 <= i < |requests| ensures StandsIn(k, requests[i].key, f) <==> Contends(requests[i].key, k, f) {
      StandsInExactly(k, requests[i].key, f);
    }
  }

  /** A row blocks exactly if it stands in a request's way and is live even once the
      dying are dead. */
  lemma BlocksExactly(l: Locks, k: Key, requests: seq<Request>, dying: set<nat>, f: Folding)
    requires k in l.rows && forall i :: 0 <= i < |requests| ==> requests[i].key.owner != ""
    ensures Blocks(l, k, requests, dying, f) <==>
      StandsInAny(k, requests, f) && Live(l.(dead := l.dead + dying), k)
  {
    var later := l.(dead := l.dead + dying);
    LiveExactly(l, k, f);
    LiveExactly(later, k, f);
    StandsInAnyExactly(k, requests, f);
    assert InFlight(later, k) == InFlight(l, k);
    if StandsInAny(k, requests, f) && Live(later, k) { BlocksUnlessStale(l, k, requests, dying, f); }
    if Blocks(l, k, requests, dying, f) {
      var i :| 0 <= i < |requests| && Contends(requests[i].key, k, f)
        && ContextAt(l, l.dead + dying, f).Conflicts(Asked(requests[i].key), RecordOf(l, k));
      ConflictsExactly(ContextAt(l, l.dead + dying, f), Asked(requests[i].key), RecordOf(l, k));
    }
  }

  /** Some request takes the row over. */
  predicate Adopted(requests: seq<Request>, k: Key) {
    exists i | 0 <= i < |requests| :: requests[i].adopt == Some(k)
  }

  lemma {:induction false} GrantExactly(rows: map<Key, Row>, requests: seq<Request>, row: Row, k: Key)
    requires !Adopted(requests, k)
    ensures k in Grant(rows, requests, row) <==> Requested(requests, k) || k in rows
    ensures Requested(requests, k) ==> Grant(rows, requests, row)[k] == row
    ensures !Requested(requests, k) && k in rows ==> Grant(rows, requests, row)[k] == rows[k]
  {
    if |requests| > 0 {
      var n := |requests| - 1;
      assert requests[n].adopt != Some(k);
      forall i | 0 <= i < n ensures requests[..n][i].adopt != Some(k) {
        assert requests[i].adopt != Some(k);
      }
      GrantExactly(rows, requests[..n], row, k);
      if Requested(requests[..n], k) {
        var i :| 0 <= i < n && requests[..n][i].key == k;
        assert requests[i].key == k;
      }
      if i :| 0 <= i < |requests| && requests[i].key == k && i < n {
        assert requests[..n][i].key == k;
      }
    }
  }

  /** Somebody else's row stands in the way of a request, and is live even once the
      dying are dead. */
  ghost predicate Hindered(l: Locks, requests: seq<Request>, dying: set<nat>, f: Folding) {
    exists k :: k in l.rows && StandsInAny(k, requests, f) && Live(l.(dead := l.dead + dying), k)
  }

  lemma HinderedExactly(l: Locks, requests: seq<Request>, dying: set<nat>, f: Folding)
    requires forall i :: 0 <= i < |requests| ==> requests[i].key.owner != ""
    ensures Hindered(l, requests, dying, f) <==> exists k :: k in l.rows && Blocks(l, k, requests, dying, f)
  {
    forall k | k in l.rows
      ensures Blocks(l, k, requests, dying, f) <==> StandsInAny(k, requests, f) && Live(l.(dead := l.dead + dying), k)
    {
      BlocksExactly(l, k, requests, dying, f);
    }
  }

  /** What becomes of a row nobody takes over when a batch is asked for. If the batch is
      hindered, nothing; else it has the new row if it was asked for, and otherwise stays
      as it was unless it stood in the way and was not live. */
  lemma AcquireExactly(l: Locks, step: Step, f: Folding, k: Key)
    requires step.Acquire? && MayTake(l, step) && !Adopted(step.requests, k)
    requires forall i :: 0 <= i < |step.requests| ==> step.requests[i].key.owner != ""
    ensures var t := Next(l, step, f);
      if Hindered(l, step.requests, step.dying, f) then t.rows == l.rows
      else if Requested(step.requests, k) then k in t.rows && t.rows[k] == Row(step.expires, step.holder)
      else
        && (k in t.rows <==> k in l.rows && (StandsInAny(k, step.requests, f) ==> Live(l, k)))
        && (k in t.rows ==> t.rows[k] == l.rows[k])
  {
    HinderedExactly(l, step.requests, step.dying, f);
    GrantExactly(l.rows - Reclaimed(l, step.requests, f), step.requests, Row(step.expires, step.holder), k);
    StandsInAnyExactly(k, step.requests, f);
    if k in l.rows { LiveExactly(l, k, f); }
  }

  /** Every row names a territory. */
  lemma {:induction false} RowsAreTerritories(steps: seq<Step>, f: Folding)
    ensures forall k :: k in Run(steps, f).rows ==> Territorial(k.target)
  {
    if |steps| > 0 {
      RowsAreTerritories(steps[..|steps| - 1], f);
      var l, step := Run(steps[..|steps| - 1], f), steps[|steps| - 1];
      if MayTake(l, step) && step.Acquire? {
        Granted(l.rows - Reclaimed(l, step.requests, f), step.requests, Row(step.expires, step.holder));
      }
    }
  }

  function LiftedHold(l: Locks, k: Key, f: Folding): Hold
    requires k in l.rows
  {
    ContextAt(l, l.dead, f).LockHold(RecordOf(l, k))
  }

  /** The holds a decision reads: rows, lifted. */
  ghost predicate HoldsOf(holds: seq<Hold>, l: Locks, f: Folding) {
    forall i :: 0 <= i < |holds| ==> exists k :: k in l.rows && holds[i] == LiftedHold(l, k, f)
  }

  /** Names folded or not, what lies in a territory lies in it. */
  ghost predicate FoldsWell(f: Folding) {
    f.caseFold ==> KeepsTerritories(f.lower)
  }

  lemma CoveredInside(f: Folding, c: Context, hold: Path, p: Path, other: Path)
    requires FoldsWell(f) && c.caseFold == f.caseFold && c.lower == f.lower
    requires Territorial(hold) && Territorial(p) && Territorial(other) && Within(hold, p)
    requires c.PrefixCovers(other, p)
    ensures c.PrefixCovers(other, hold)
  {
    if PrefixOverlaps(other, p) {
      CoversInside(hold, p, other);
    } else {
      CoversInside(c.lower(hold), c.lower(p), c.lower(other));
    }
  }

  lemma HolderNotRefused(steps: seq<Step>, f: Folding, a: Key, k: Key, p: Path)
    requires FoldsWell(f) && Live(Run(steps, f), a) && k in Run(steps, f).rows
    requires Territorial(p) && Within(a.target, p) && a.owner != ""
    ensures var l := Run(steps, f);
      !ContextAt(l, l.dead, f).Refuses(a.owner, a.worktree, p, LiftedHold(l, k, f))
  {
    var l := Run(steps, f);
    var c := ContextAt(l, l.dead, f);
    RowsAreTerritories(steps, f);
    if a.owner != k.owner && SameWorktree(a.worktree, k.worktree) && !Stale(l, k, l.dead, f) && c.PrefixCovers(k.target, p) {
      CoveredInside(f, c, a.target, p, k.target);
      LiveExactly(l, k, f);
      LiveHoldsNeverOverlap(steps, f, k, a);
    }
  }

  /** A path inside a live hold may be written, in the hold's worktree, by exactly its
      holder: everyone else is refused, and no other hold stands in the holder's way.
      Any file system will do that folds names letter by letter, or not at all. */
  lemma OnlyTheHolderWrites(steps: seq<Step>, f: Folding, a: Key, p: Path, actor: string, holds: seq<Hold>)
    requires var l := Run(steps, f);
      FoldsWell(f) && Live(l, a) && HoldsOf(holds, l, f) && LiftedHold(l, a, f) in holds
    requires Territorial(p) && Within(a.target, p) && actor != ""
    ensures var l := Run(steps, f);
      ContextAt(l, l.dead, f).Decide(actor, a.worktree, p, holds) == -1 <==> actor == a.owner
  {
    var l := Run(steps, f);
    var c := ContextAt(l, l.dead, f);
    if actor == a.owner {
      forall i | 0 <= i < |holds| ensures !c.Refuses(actor, a.worktree, p, holds[i]) {
        var k :| k in l.rows && holds[i] == LiftedHold(l, k, f);
        HolderNotRefused(steps, f, a, k, p);
      }
    } else {
      LiveExactly(l, a, f);
      var i :| 0 <= i < |holds| && holds[i] == LiftedHold(l, a, f);
      assert c.Refuses(actor, a.worktree, p, holds[i]);
    }
  }

  /** A lapsed row whose holder lives comes back without a new grant in exactly one
      way: a call that began before the lapse posts late, after it was flagged missing
      or given up. Nobody else's hold is hurt by it: the theorem above needs no more. */
  lemma RevivesExactly(l: Locks, step: Step, k: Key, f: Folding)
    requires k in l.rows && k in Next(l, step, f).rows && !step.Acquire?
    requires !Live(l, k) && l.rows[k].holder !in l.dead
    ensures Live(Next(l, step, f), k) <==>
      (step.Post? && MayTake(l, step) && k in step.touched
        && l.calls[step.call].owner == k.owner && l.calls[step.call].pre < l.rows[k].expires)
  {
    LiveExactly(l, k, f);
    LiveExactly(Next(l, step, f), k, f);
    assert l.now >= l.rows[k].expires && !InFlight(l, k);
    if MayTake(l, step) {
      var t := Next(l, step, f);
      if t.rows[k] == l.rows[k] {
        forall c | c in t.calls ensures !OpenCall(t.calls[c], k.owner, t.rows[k].expires) {
          if c in l.calls { assert !OpenCall(l.calls[c], k.owner, l.rows[k].expires); }
        }
        assert !InFlight(t, k);
      }
    }
  }

  /** What happens to a row outside an acquire. It leaves only when deleted; a refresh
      moves its expiry only while it has not run out; a call moves it only if the row is
      the caller's own and was live when the call began, and only once less than a
      quarter of an hour of it is left, to half an hour from now. */
  lemma TouchedExactly(l: Locks, step: Step, k: Key, f: Folding)
    requires k in l.rows && MayTake(l, step) && !step.Acquire?
    ensures var t := Next(l, step, f);
      && (k in t.rows <==> !(step.Delete? && k in step.keys))
      && (k in t.rows ==> t.rows[k] == Row(match step
            case Refresh(keys, ttl) => if k in keys && l.now < l.rows[k].expires then l.now + ttl else l.rows[k].expires
            case Open(_, owner, touched) =>
              if k in touched && k.owner == owner && l.now < l.rows[k].expires < l.now + 900_000_000_000
              then l.now + 1_800_000_000_000 else l.rows[k].expires
            case Post(c, touched) =>
              if k in touched && k.owner == l.calls[c].owner && l.calls[c].pre < l.rows[k].expires < l.now + 900_000_000_000
              then l.now + 1_800_000_000_000 else l.rows[k].expires
            case _ => l.rows[k].expires, l.rows[k].holder))
  {
  }

  // --- a row that comes back ------------------------------------------------

  const ROW := Key("a", "owner", "tree")

  /** A row is granted, a call opens, the row lapses, the call is flagged overdue, and
      then its post lands. */
  const REVIVAL := [Acquire([Request(ROW, None)], 1, 0, {}), Open(0, "owner", {}), Tick(1), Flag(0), Post(0, {ROW})]

  lemma NextOfRun(steps: seq<Step>, f: Folding, n: nat)
    requires n < |steps|
    ensures Run(steps[..n + 1], f) == Next(Run(steps[..n], f), steps[n], f)
  {
    assert steps[..n + 1][..n] == steps[..n];
  }

  lemma GrantedAlone(f: Folding)
    ensures Run(REVIVAL[..1], f) == START.(rows := map[ROW := Row(1, 0)])
  {
    NextOfRun(REVIVAL, f, 0);
    assert REVIVAL[..0] == [];
    SplitWhole("a", '/');
    assert Territorial(ROW.target);
    assert MayTake(START, REVIVAL[0]);
    assert START.rows - Reclaimed(START, [Request(ROW, None)], f) == map[];
    assert [Request(ROW, None)][..0] == [];
    assert Grant(map[], [Request(ROW, None)], Row(1, 0)) == map[ROW := Row(1, 0)];
  }

  const OPEN := Call("owner", 0, false, false, false)

  lemma Opened(f: Folding)
    ensures Run(REVIVAL[..2], f) == Locks(0, map[ROW := Row(1, 0)], map[0 := OPEN], {})
  {
    GrantedAlone(f);
    NextOfRun(REVIVAL, f, 1);
  }

  lemma Lapsed(f: Folding)
    ensures Run(REVIVAL[..4], f) == Locks(1, map[ROW := Row(1, 0)], map[0 := OPEN.(missing := true)], {})
  {
    Opened(f);
    NextOfRun(REVIVAL, f, 2);
    NextOfRun(REVIVAL, f, 3);
  }

  /** The row as the post finds it, and as it leaves it. */
  lemma RevivalHappens(f: Folding)
    ensures var l, t := Run(REVIVAL[..4], f), Run(REVIVAL, f);
      ROW in l.rows && !Live(l, ROW) && l.rows[ROW].holder !in l.dead && Live(t, ROW)
  {
    Lapsed(f);
    var l := Run(REVIVAL[..4], f);
    NextOfRun(REVIVAL, f, 4);
    assert REVIVAL[..5] == REVIVAL;
    RevivesExactly(l, REVIVAL[4], ROW, f);
  }
}
