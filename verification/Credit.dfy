/**
 * Prepaid balances and their append-only ledger, under concurrent transactions
 * (backend/src/customers-depth/customer-credit.service.ts).
 *
 * A transaction holds the lock of every balance row it has read until it commits
 * or aborts; its writes are visible to itself only until then.  Amounts are reals.
 */
module Credit {
  datatype Direction = Credit | Debit

  /** `stamp` is the moment of the post, on a clock that advances with every step. */
  datatype Entry = Entry(customerId: string, direction: Direction, amount: real, balanceAfter: real, stamp: nat)

  function Signed(direction: Direction, amount: real): real { if direction == Credit then amount else -amount }

  /** `locks` remembers when each balance row was locked. */
  datatype Txn = Txn(locks: map<string, nat>, writes: map<string, real>, pending: seq<Entry>)

  datatype State = State(balances: map<string, real>, ledger: seq<Entry>, open: map<nat, Txn>, clock: nat)

  predicate LockFree(s: State, t: nat, customerId: string) {
    forall u :: u in s.open && u != t ==> customerId !in s.open[u].locks
  }

  /** A customer without a row has a balance of zero. */
  function Balance(s: State, customerId: string): real {
    if customerId in s.balances then s.balances[customerId] else 0.0
  }

  /** The balance a transaction reads: its own write first. */
  function View(s: State, x: Txn, customerId: string): real {
    if customerId in x.writes then x.writes[customerId] else Balance(s, customerId)
  }

  datatype Step =
    | Begin(t: nat)
    | Lock(t: nat, customerId: string)
    | Post(t: nat, customerId: string, direction: Direction, amount: real)
    | Commit(t: nat)
    | Abort(t: nat)
    | Touch(customerId: string)

  /** The locked row, created at zero on first touch. */
  function Locked(s: State, x: Txn, customerId: string): Txn {
    if customerId in x.locks then x
    else x.(locks := x.locks[customerId := s.clock],
            writes := if customerId in s.balances then x.writes else x.writes[customerId := 0.0])
  }

  predicate CanPost(s: State, x: Txn, customerId: string, direction: Direction, amount: real) {
    View(s, x, customerId) + Signed(direction, amount) >= 0.0
  }

  function Posted(s: State, x: Txn, customerId: string, direction: Direction, amount: real): Txn {
    var next := View(s, x, customerId) + Signed(direction, amount);
    x.(writes := x.writes[customerId := next],
       pending := x.pending + [Entry(customerId, direction, amount, next, s.clock)])
  }

  function Enabled(s: State, step: Step): bool {
    match step
    case Begin(t) => t !in s.open
    case Lock(t, c) => t in s.open && LockFree(s, t, c)
    case Post(t, c, d, a) => t in s.open && c in s.open[t].locks && CanPost(s, s.open[t], c, d, a)
    case Commit(t) => t in s.open
    case Abort(t) => t in s.open
    case Touch(c) => forall u :: u in s.open ==> c !in s.open[u].writes || c in s.balances
  }

  /** A step that is not enabled waits or is refused, and changes nothing. */
  function Next(s: State, step: Step): State {
    if !Enabled(s, step) then s
    else
      var now := s.(clock := s.clock + 1);
      match step
      case Begin(t) => now.(open := s.open[t := Txn(map[], map[], [])])
      case Lock(t, c) => now.(open := s.open[t := Locked(s, s.open[t], c)])
      case Post(t, c, d, a) => now.(open := s.open[t := Posted(s, s.open[t], c, d, a)])
      case Commit(t) =>
        now.(balances := s.balances + s.open[t].writes, ledger := s.ledger + s.open[t].pending, open := s.open - {t})
      case Abort(t) => now.(open := s.open - {t})
      case Touch(c) => now.(balances := if c in s.balances then s.balances else s.balances[c := 0.0])
  }

  const EMPTY := State(map[], [], map[], 0)

  function Run(steps: seq<Step>): State {
    if steps == [] then EMPTY else Next(Run(steps[..|steps| - 1]), steps[|steps| - 1])
  }

  // ---- The ledger of one customer --------------------------------------------------

  function Of(entries: seq<Entry>, customerId: string): seq<Entry> {
    if entries == [] then []
    else
      var e := entries[|entries| - 1];
      Of(entries[..|entries| - 1], customerId) + if e.customerId == customerId then [e] else []
  }

  function Sum(entries: seq<Entry>): real {
    if entries == [] then 0.0
    else
      var e := entries[|entries| - 1];
      Sum(entries[..|entries| - 1]) + Signed(e.direction, e.amount)
  }

  ghost predicate Before(entries: seq<Entry>, time: nat) { forall e :: e in entries ==> e.stamp < time }

  /** Every recorded balance is the sum so far and not negative, and the posts are in order. */
  ghost predicate Sound(entries: seq<Entry>) {
    entries != [] ==>
      var prefix, e := entries[..|entries| - 1], entries[|entries| - 1];
      Sound(prefix) && e.balanceAfter == Sum(entries) >= 0.0 && Before(prefix, e.stamp)
  }

  lemma {:induction false} SoundAt(entries: seq<Entry>, k: nat)
    requires Sound(entries) && k < |entries|
    ensures entries[k].balanceAfter == Sum(entries[..k + 1]) >= 0.0
    ensures forall j :: 0 <= j < k ==> entries[j].stamp < entries[k].stamp
  {
    var prefix := entries[..|entries| - 1];
    if k < |prefix| {
      SoundAt(prefix, k);
      assert prefix[..k + 1] == entries[..k + 1];
      assert forall j :: 0 <= j < |prefix| ==> prefix[j] == entries[j];
    } else {
      assert entries[..k + 1] == entries && entries[..k] == prefix;
      forall j | 0 <= j < k ensures entries[j].stamp < entries[k].stamp { assert entries[j] in prefix; }
    }
  }

  lemma OfSnoc(a: seq<Entry>, e: Entry, customerId: string)
    ensures Of(a + [e], customerId) == Of(a, customerId) + if e.customerId == customerId then [e] else []
  {
    assert (a + [e])[..|a|] == a;
  }

  lemma Associates(a: seq<Entry>, b: seq<Entry>, c: seq<Entry>)
    ensures (a + b) + c == a + (b + c)
  {
  }

  lemma {:induction false} OfAppend(a: seq<Entry>, b: seq<Entry>, customerId: string)
    ensures Of(a + b, customerId) == Of(a, customerId) + Of(b, customerId)
  {
    if b == [] {
      assert a + b == a;
    } else {
      var front, e := b[..|b| - 1], b[|b| - 1];
      hide Of;
      OfAppend(a, front, customerId);
      assert a + b == (a + front) + [e] && b == front + [e];
      OfSnoc(a + front, e, customerId);
      OfSnoc(front, e, customerId);
      Associates(Of(a, customerId), Of(front, customerId), if e.customerId == customerId then [e] else []);
    }
  }

  lemma {:induction false} OfNobody(entries: seq<Entry>, customerId: string)
    requires forall e :: e in entries ==> e.customerId != customerId
    ensures Of(entries, customerId) == []
  {
    if entries != [] { OfNobody(entries[..|entries| - 1], customerId); }
  }

  lemma SoundSnoc(entries: seq<Entry>, e: Entry)
    requires Sound(entries) && Before(entries, e.stamp)
    requires e.balanceAfter == Sum(entries) + Signed(e.direction, e.amount) >= 0.0
    ensures Sound(entries + [e]) && Sum(entries + [e]) == e.balanceAfter
  {
    assert (entries + [e])[..|entries|] == entries;
  }

  // ---- The invariant ---------------------------------------------------------------

  /** What holds of one customer's committed rows. */
  ghost predicate Settled(s: State, c: string) {
    Sound(Of(s.ledger, c)) && Balance(s, c) == Sum(Of(s.ledger, c)) && Before(Of(s.ledger, c), s.clock)
  }

  /** What a transaction that holds the customer's lock would commit. */
  ghost predicate Holding(s: State, x: Txn, c: string) {
    var all := Of(s.ledger, c) + Of(x.pending, c);
    Sound(all) && View(s, x, c) == Sum(all) && Before(all, s.clock)
  }

  /** A transaction writes and records only what it has locked. */
  ghost predicate Confined(x: Txn) {
    x.writes.Keys <= x.locks.Keys && forall e :: e in x.pending ==> e.customerId in x.locks
  }

  ghost predicate Disjoint(s: State, t: nat, u: nat)
    requires t in s.open && u in s.open
  {
    s.open[t].locks.Keys !! s.open[u].locks.Keys
  }

  ghost predicate Inv(s: State) {
    && (forall c :: Settled(s, c))
    && (forall t :: t in s.open ==> Confined(s.open[t]))
    && (forall t, c :: t in s.open && c in s.open[t].locks ==> Holding(s, s.open[t], c))
    && (forall t, u :: t in s.open && u in s.open && t != u ==> Disjoint(s, t, u))
  }

  lemma SettledFrame(s: State, r: State, c: string)
    requires Settled(s, c) && r.ledger == s.ledger && Balance(r, c) == Balance(s, c) && r.clock >= s.clock
    ensures Settled(r, c)
  {
    hide Of, Sum, Sound, Balance;
  }

  lemma HoldingFrame(s: State, r: State, x: Txn, y: Txn, c: string)
    requires Holding(s, x, c) && r.clock >= s.clock
    requires Of(r.ledger, c) == Of(s.ledger, c) && Of(y.pending, c) == Of(x.pending, c) &&
      View(r, y, c) == View(s, x, c)
    ensures Holding(r, y, c)
  {
    hide Of, Sum, Sound, View;
  }

  lemma WritesAreLocked(s: State, t: nat, c: string)
    requires Inv(s) && t in s.open
    ensures c in s.open[t].writes ==> c in s.open[t].locks
  {
    hide Settled, Holding, Disjoint;
    assert Confined(s.open[t]);
  }

  /** A fresh lock: nothing pending, and the committed balance in view. */
  lemma LockHolds(s: State, x: Txn, c: string)
    requires Settled(s, c) && Confined(x) && c !in x.locks
    ensures Holding(s, Locked(s, x, c), c)
  {
    OfNobody(x.pending, c);
    assert Of(s.ledger, c) + [] == Of(s.ledger, c);
    hide Of, Sum, Sound, Before;
  }

  lemma LockKeeps(s: State, t: nat, c: string)
    requires Inv(s) && Enabled(s, Lock(t, c))
    ensures Inv(Next(s, Lock(t, c)))
  {
    hide Settled, Holding, Of;
    var x := s.open[t];
    var r := Next(s, Lock(t, c));
    forall d ensures Settled(r, d) { SettledFrame(s, r, d); }
    forall u, d | u in r.open && d in r.open[u].locks ensures Holding(r, r.open[u], d) {
      if u == t && d !in x.locks {
        LockHolds(s, x, c);
        HoldingFrame(s, r, r.open[u], r.open[u], d);
      } else {
        HoldingFrame(s, r, s.open[u], r.open[u], d);
      }
    }
    forall u, v | u in r.open && v in r.open && u != v ensures Disjoint(r, u, v) { assert Disjoint(s, u, v); }
  }

  lemma OneOf(e: Entry, c: string)
    ensures Of([e], c) == if e.customerId == c then [e] else []
  {
    assert [e][..0] == [];
  }

  lemma PostHolds(s: State, x: Txn, c: string, direction: Direction, amount: real)
    requires Holding(s, x, c) && CanPost(s, x, c, direction, amount)
    ensures Holding(s.(clock := s.clock + 1), Posted(s, x, c, direction, amount), c)
  {
    hide Of, Sum, Sound;
    var e := Entry(c, direction, amount, View(s, x, c) + Signed(direction, amount), s.clock);
    var all := Of(s.ledger, c) + Of(x.pending, c);
    SoundSnoc(all, e);
    OfAppend(x.pending, [e], c);
    OneOf(e, c);
    assert Of(s.ledger, c) + Of(x.pending + [e], c) == all + [e];
  }

  lemma PostElsewhere(x: Txn, e: Entry, d: string)
    requires d != e.customerId
    ensures Of(x.pending + [e], d) == Of(x.pending, d)
  {
    OfAppend(x.pending, [e], d);
    OneOf(e, d);
    hide Of;
    assert Of(x.pending, d) + [] == Of(x.pending, d);
  }

  lemma PostKeeps(s: State, t: nat, c: string, direction: Direction, amount: real)
    requires Inv(s) && Enabled(s, Post(t, c, direction, amount))
    ensures Inv(Next(s, Post(t, c, direction, amount)))
  {
    hide Settled, Holding, Of, CanPost, Signed;
    var x := s.open[t];
    var r := Next(s, Post(t, c, direction, amount));
    var e := Entry(c, direction, amount, View(s, x, c) + Signed(direction, amount), s.clock);
    forall d ensures Settled(r, d) { SettledFrame(s, r, d); }
    assert Confined(x);
    forall u, d | u in r.open && d in r.open[u].locks ensures Holding(r, r.open[u], d) {
      if u == t && d == c {
        PostHolds(s, x, c, direction, amount);
        HoldingFrame(s.(clock := s.clock + 1), r, r.open[u], r.open[u], d);
      } else {
        if u == t { PostElsewhere(x, e, d); }
        HoldingFrame(s, r, s.open[u], r.open[u], d);
      }
    }
    forall u, v | u in r.open && v in r.open && u != v ensures Disjoint(r, u, v) { assert Disjoint(s, u, v); }
  }

  /** What a commit makes of one customer's ledger. */
  lemma CommittedLedger(s: State, x: Txn, c: string)
    requires Confined(x)
    ensures Of(s.ledger + x.pending, c) == Of(s.ledger, c) + Of(x.pending, c)
    ensures c !in x.locks ==> Of(s.ledger + x.pending, c) == Of(s.ledger, c)
  {
    OfAppend(s.ledger, x.pending, c);
    if c !in x.locks { OfNobody(x.pending, c); }
    hide Of;
    assert Of(s.ledger, c) + [] == Of(s.ledger, c);
  }

  lemma CommitSettles(s: State, t: nat, c: string)
    requires t in s.open && Confined(s.open[t]) && Settled(s, c)
    requires c in s.open[t].locks ==> Holding(s, s.open[t], c)
    ensures Settled(Next(s, Commit(t)), c)
  {
    CommittedLedger(s, s.open[t], c);
    hide Of, Sum, Sound;
  }

  lemma CommitKeeps(s: State, t: nat)
    requires Inv(s) && Enabled(s, Commit(t))
    ensures Inv(Next(s, Commit(t)))
  {
    hide Settled, Holding, Of;
    var x := s.open[t];
    var r := Next(s, Commit(t));
    forall d ensures Settled(r, d) { CommitSettles(s, t, d); }
    forall u, d | u in r.open && d in r.open[u].locks ensures Holding(r, r.open[u], d) {
      assert Disjoint(s, u, t);
      CommittedLedger(s, x, d);
      HoldingFrame(s, r, s.open[u], r.open[u], d);
    }
    forall u, v | u in r.open && v in r.open && u != v ensures Disjoint(r, u, v) { assert Disjoint(s, u, v); }
  }

  lemma OthersKeep(s: State, step: Step)
    requires Inv(s) && Enabled(s, step) && (step.Begin? || step.Abort? || step.Touch?)
    ensures Inv(Next(s, step))
  {
    hide Settled, Holding, Of;
    var r := Next(s, step);
    forall d ensures Settled(r, d) { SettledFrame(s, r, d); }
    forall u, d | u in r.open && d in r.open[u].locks ensures Holding(r, r.open[u], d) {
      HoldingFrame(s, r, s.open[u], r.open[u], d);
    }
    forall u, v | u in r.open && v in r.open && u != v ensures Disjoint(r, u, v) {
      if u in s.open && v in s.open { assert Disjoint(s, u, v); }
    }
  }

  lemma StepKeeps(s: State, step: Step)
    requires Inv(s)
    ensures Inv(Next(s, step))
  {
    hide Inv;
    if Enabled(s, step) {
      match step
      case Lock(t, c) => LockKeeps(s, t, c);
      case Post(t, c, d, a) => PostKeeps(s, t, c, d, a);
      case Commit(t) => CommitKeeps(s, t);
      case Begin(_) => OthersKeep(s, step);
      case Abort(_) => OthersKeep(s, step);
      case Touch(_) => OthersKeep(s, step);
    }
  }

  lemma {:induction false} RunKeeps(steps: seq<Step>)
    ensures Inv(Run(steps))
  {
    if steps == [] {
      assert Run(steps) == EMPTY;
      forall c ensures Settled(EMPTY, c) { }
    } else {
      RunKeeps(steps[..|steps| - 1]);
      StepKeeps(Run(steps[..|steps| - 1]), steps[|steps| - 1]);
      hide Inv, Next;
    }
  }

  /** The amounts of one direction. */
  function Total(entries: seq<Entry>, direction: Direction): real {
    if entries == [] then 0.0
    else
      var e := entries[|entries| - 1];
      Total(entries[..|entries| - 1], direction) + if e.direction == direction then e.amount else 0.0
  }

  lemma {:induction false} SumIsCreditsLessDebits(entries: seq<Entry>)
    ensures Sum(entries) == Total(entries, Credit) - Total(entries, Debit)
  {
    if entries != [] { SumIsCreditsLessDebits(entries[..|entries| - 1]); }
  }

  /** Each recorded balance is the credits less the debits so far, and not negative; posts stand in order. */
  ghost predicate Audited(entries: seq<Entry>) {
    && (forall k: nat :: k < |entries| ==> BalanceIsRight(entries, k))
    && (forall j, k :: 0 <= j < k < |entries| ==> entries[j].stamp < entries[k].stamp)
  }

  ghost predicate BalanceIsRight(entries: seq<Entry>, k: nat)
    requires k < |entries|
  {
    entries[k].balanceAfter == Total(entries[..k + 1], Credit) - Total(entries[..k + 1], Debit) >= 0.0
  }

  lemma RunSettles(steps: seq<Step>, customerId: string)
    ensures Sound(Of(Run(steps).ledger, customerId))
    ensures Balance(Run(steps), customerId) == Sum(Of(Run(steps).ledger, customerId))
  {
    RunKeeps(steps);
    hide Run, Of, Sum, Sound;
    assert Settled(Run(steps), customerId);
  }

  /**
   * In every interleaving: the committed balance is what the customer's ledger credits
   * less what it debits, each recorded balance is that up to its entry and never
   * negative, and the entries stand in the order in which they were posted.
   */
  lemma LedgerIsSound(steps: seq<Step>, customerId: string)
    ensures
      var s := Run(steps);
      var entries := Of(s.ledger, customerId);
      && Balance(s, customerId) == Total(entries, Credit) - Total(entries, Debit)
      && Audited(entries)
  {
    hide *;
    RunSettles(steps, customerId);
    SumIsCreditsLessDebits(Of(Run(steps).ledger, customerId));
    EntriesAreSound(Of(Run(steps).ledger, customerId));
  }

  lemma EntriesAreSound(entries: seq<Entry>)
    requires Sound(entries)
    ensures Audited(entries)
  {
    hide Sound, Sum, Total;
    forall k: nat | k < |entries| ensures BalanceIsRight(entries, k) {
      SoundAt(entries, k);
      SumIsCreditsLessDebits(entries[..k + 1]);
    }
    forall j, k | 0 <= j < k < |entries| ensures entries[j].stamp < entries[k].stamp { SoundAt(entries, k); }
  }

  /** No committed balance is ever negative. */
  lemma NeverNegative(steps: seq<Step>, customerId: string)
    ensures Balance(Run(steps), customerId) >= 0.0
  {
    hide *;
    RunKeeps(steps);
    CommittedNotNegative(Run(steps), customerId);
  }

  // ---- The service -----------------------------------------------------------------

  datatype Failure = BadRequest | NotFound | InsufficientBalance | Blocked

  datatype Result<+T> = Ok(value: T) | Err(failure: Failure)

  lemma SignedMeans(direction: Direction, amount: real)
    ensures direction == Credit ==> Signed(direction, amount) == amount
    ensures direction == Debit ==> Signed(direction, amount) == -amount
  {
  }

  lemma CommittedNotNegative(s: State, c: string)
    requires Inv(s)
    ensures Balance(s, c) >= 0.0
  {
    hide Of, Holding, Confined, Disjoint;
    assert Settled(s, c);
    var entries := Of(s.ledger, c);
    if entries == [] { NothingAdds(); }
  }

  lemma NothingAdds()
    ensures Sum([]) == 0.0
  {
  }

  lemma CanPostMeans(s: State, t: nat, c: string, direction: Direction, amount: real)
    requires t in s.open && s.open[t].writes == map[]
    ensures CanPost(s, s.open[t], c, direction, amount) <==> Balance(s, c) + Signed(direction, amount) >= 0.0
  {
  }

  predicate Records(e: Entry, customerId: string, direction: Direction, amount: real) {
    e.customerId == customerId && e.direction == direction && e.amount == amount
  }

  /** Only this transaction differs; nothing is committed. */
  predicate Touches(s: State, r: State, t: nat) {
    t in r.open && r.open == s.open[t := r.open[t]] && r.ledger == s.ledger && r.balances == s.balances
  }

  lemma LockStep(s: State, t: nat, c: string)
    requires t in s.open && LockFree(s, t, c)
    ensures
      var r := Next(s, Lock(t, c));
      && r == s.(open := s.open[t := Locked(s, s.open[t], c)], clock := s.clock + 1)
      && Touches(s, r, t) && c in r.open[t].locks && r.open[t].pending == s.open[t].pending
  {
    hide LockFree;
  }

  lemma PostStep(s: State, t: nat, c: string, direction: Direction, amount: real)
    requires t in s.open && c in s.open[t].locks
    ensures
      var r := Next(s, Post(t, c, direction, amount));
      if CanPost(s, s.open[t], c, direction, amount)
      then r == s.(open := s.open[t := Posted(s, s.open[t], c, direction, amount)], clock := s.clock + 1)
      else r == s
  {
    hide CanPost;
  }

  class CustomerCreditService {
    const customers: set<string>
    var state: State

    constructor (customers: set<string>)
      ensures this.customers == customers && state == EMPTY && Inv(state)
    {
      this.customers := customers;
      state := EMPTY;
      new;
      assert Run([]) == EMPTY;
      RunKeeps([]);
    }

    /** The balance read by transaction `t`, its row created and locked. */
    method CurrentBalance(t: nat, customerId: string) returns (balance: real)
      requires Inv(state) && t in state.open && LockFree(state, t, customerId)
      modifies this
      ensures Inv(state) && state == Next(old(state), Lock(t, customerId)) && Touches(old(state), state, t)
      ensures customerId in state.open[t].locks && state.open[t].pending == old(state).open[t].pending
      ensures state.open[t].writes in {old(state).open[t].writes, old(state).open[t].writes[customerId := 0.0]}
      ensures balance == View(state, state.open[t], customerId) == View(old(state), old(state).open[t], customerId)
    {
      hide Inv, LockFree, Next;
      WritesAreLocked(state, t, customerId);
      LockStep(state, t, customerId);
      LockKeeps(state, t, customerId);
      var x := state.open[t];
      if customerId !in x.locks {
        var writes := if customerId in state.balances then x.writes else x.writes[customerId := 0.0];
        x := Txn(x.locks[customerId := state.clock], writes, x.pending);
      }
      state := state.(open := state.open[t := x], clock := state.clock + 1);
      balance := View(state, x, customerId);
    }

    /** Locks, refuses an overdrawing debit, else writes the balance and records the entry. */
    method PostInClient(t: nat, customerId: string, direction: Direction, amount: real) returns (r: Result<Entry>)
      requires Inv(state) && t in state.open && LockFree(state, t, customerId)
      modifies this
      ensures Inv(state)
      ensures state == Next(Next(old(state), Lock(t, customerId)), Post(t, customerId, direction, amount))
      ensures Touches(old(state), state, t)
      ensures r.Ok? <==> CanPost(old(state), old(state).open[t], customerId, direction, amount)
      ensures r.Ok? <==>
        View(old(state), old(state).open[t], customerId) + (if direction == Credit then amount else -amount) >= 0.0
      ensures r.Ok? ==>
        && Records(r.value, customerId, direction, amount)
        && r.value.balanceAfter ==
            View(old(state), old(state).open[t], customerId) + (if direction == Credit then amount else -amount)
        && state.open[t].pending == old(state).open[t].pending + [r.value]
        && state.open[t].writes == old(state).open[t].writes[customerId := r.value.balanceAfter]
      ensures r.Err? ==> r.failure == InsufficientBalance
    {
      hide Inv, LockFree, Next, View, Signed;
      SignedMeans(direction, amount);
      var current := CurrentBalance(t, customerId);
      PostStep(state, t, customerId, direction, amount);
      var delta := if direction == Credit then amount else -amount;
      var next := current + delta;
      if next < 0.0 { return Err(InsufficientBalance); }
      PostKeeps(state, t, customerId, direction, amount);
      var entry := Entry(customerId, direction, amount, next, state.clock);
      var x := state.open[t];
      x := Txn(x.locks, x.writes[customerId := next], x.pending + [entry]);
      assert x.writes == old(state).open[t].writes[customerId := next];
      state := state.(open := state.open[t := x], clock := state.clock + 1);
      return Ok(entry);
    }

    /** One whole transaction: posted and committed, or aborted without a trace. */
    method PostTransaction(t: nat, customerId: string, direction: Direction, amount: real) returns (r: Result<Entry>)
      requires Inv(state) && t !in state.open && LockFree(state, t, customerId)
      modifies this
      ensures Inv(state) && state.open == old(state).open
      ensures amount <= 0.0 ==> r == Err(BadRequest)
      ensures amount > 0.0 && customerId !in customers ==> r == Err(NotFound)
      ensures amount > 0.0 && customerId in customers ==>
        (r.Ok? <==> direction == Credit || amount <= Balance(old(state), customerId))
      ensures r.Err? ==> state.ledger == old(state).ledger && state.balances == old(state).balances
      ensures r.Ok? ==>
        && state.ledger == old(state).ledger + [r.value]
        && Records(r.value, customerId, direction, amount)
        && (direction == Credit ==> r.value.balanceAfter == Balance(old(state), customerId) + amount)
        && (direction == Debit ==> r.value.balanceAfter == Balance(old(state), customerId) - amount)
        && state.balances == old(state).balances[customerId := r.value.balanceAfter]
    {
      hide Inv, Enabled, Next, LockFree, CanPost, Signed;
      if amount <= 0.0 { return Err(BadRequest); }
      CommittedNotNegative(state, customerId);
      SignedMeans(direction, amount);
      BeginTransaction(t, customerId);
      if customerId !in customers {
        Rollback(t);
        return Err(NotFound);
      }
      CanPostMeans(state, t, customerId, direction, amount);
      r := PostInClient(t, customerId, direction, amount);
      if r.Err? {
        Rollback(t);
      } else {
        CommitTransaction(t);
      }
    }

    method BeginTransaction(t: nat, customerId: string)
      requires Inv(state) && t !in state.open && LockFree(state, t, customerId)
      modifies this
      ensures Inv(state) && state == Next(old(state), Begin(t)) && LockFree(state, t, customerId)
      ensures state.open == old(state).open[t := Txn(map[], map[], [])]
      ensures state.ledger == old(state).ledger && state.balances == old(state).balances
    {
      hide Inv;
      OthersKeep(state, Begin(t));
      state := state.(open := state.open[t := Txn(map[], map[], [])], clock := state.clock + 1);
    }

    method CommitTransaction(t: nat)
      requires Inv(state) && t in state.open
      modifies this
      ensures Inv(state) && state == Next(old(state), Commit(t))
      ensures state.open == old(state).open - {t}
      ensures state.ledger == old(state).ledger + old(state).open[t].pending
      ensures state.balances == old(state).balances + old(state).open[t].writes
    {
      hide Inv;
      CommitKeeps(state, t);
      var x := state.open[t];
      state := State(state.balances + x.writes, state.ledger + x.pending, state.open - {t}, state.clock + 1);
    }

    method Rollback(t: nat)
      requires Inv(state) && t in state.open
      modifies this
      ensures Inv(state) && state == Next(old(state), Abort(t))
      ensures state.open == old(state).open - {t} && state.ledger == old(state).ledger &&
        state.balances == old(state).balances
    {
      hide Inv;
      OthersKeep(state, Abort(t));
      state := state.(open := state.open - {t}, clock := state.clock + 1);
    }
  }
}
