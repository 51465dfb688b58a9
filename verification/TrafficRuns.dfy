/** Traffic metering: sessions add to a pending counter while a timer now and then takes all counters and saves them,
    one user at a time, into the stored records. */
module TrafficRuns {
  import opened Prelude

  type Name = string

  type Counters = map<Name, int>

  function Get(m: Counters, u: Name): int { if u in m then m[u] else 0 }

  function Add(m: Counters, u: Name, n: int): Counters { m[u := Get(m, u) + n] }

  /** A record that the timer has read and not saved yet: its traffic counter as read. */
  datatype Held = Held(user: Name, traffic: int, record: int)

  /** What was metered, saved and dropped for each user so far, and what other writers changed the record by. */
  datatype Ledger = Ledger(metered: Counters, saved: Counters, dropped: Counters, others: Counters)

  /** `pending` is metered and not taken, `taken` is what the running flush has still to do, and `store` holds the
      traffic counter of every stored user. */
  datatype State = State(pending: Counters, taken: Counters, hand: Option<Held>, store: Counters, ledger: Ledger)

  const INITIAL := State(map[], map[], None, map[], Ledger(map[], map[], map[], map[]))

  datatype Event =
    | Adds(u: Name, n: int)
    | Snapshots
    | Skips(u: Name)
    | Reads(u: Name)
    | Saves
    | Writes(u: Name, value: Option<int>)

  /** Adds and other writers come at any time; the timer finishes one flush before the next. */
  predicate Enabled(st: State, e: Event) {
    match e
    case Adds(_, _) => true
    case Snapshots => st.taken == map[] && st.hand.None?
    case Skips(u) => st.hand.None? && u in st.taken && st.taken[u] <= 0
    case Reads(u) => st.hand.None? && u in st.taken && st.taken[u] > 0
    case Saves => st.hand.Some?
    case Writes(_, value) => value.Some? ==> -TWO_63 <= value.value < TWO_63
  }

  function Apply(st: State, e: Event): State
    requires Enabled(st, e)
  {
    var l := st.ledger;
    match e
    case Adds(u, n) =>
      st.(pending := st.pending[u := Wrap64(Get(st.pending, u) + n)], ledger := l.(metered := Add(l.metered, u, n)))
    case Snapshots => st.(pending := map[], taken := st.pending)
    case Skips(u) => st.(taken := st.taken - {u}, ledger := l.(dropped := Add(l.dropped, u, st.taken[u])))
    case Reads(u) =>
      if u in st.store then st.(taken := st.taken - {u}, hand := Some(Held(u, st.taken[u], st.store[u])))
      else st.(taken := st.taken - {u}, ledger := l.(dropped := Add(l.dropped, u, st.taken[u])))
    case Saves =>
      var Held(u, traffic, record) := st.hand.value;
      st.(hand := None, store := st.store[u := Wrap64(record + traffic)],
      ledger := l.(saved := Add(l.saved, u, traffic)))
    case Writes(u, value) =>
      st.(store := if value.Some? then st.store[u := value.value] else st.store - {u},
      ledger := l.(others := Add(l.others, u, (if value.Some? then value.value else 0) - Get(st.store, u))))
  }

  /** No other writer touches a record between the timer's read and save of it. */
  predicate Undisturbed(st: State, e: Event) {
    e.Writes? && st.hand.Some? ==> e.u != st.hand.value.user
  }

  ghost predicate Run(trace: seq<State>, es: seq<Event>) {
    && |trace| == |es| + 1 && trace[0] == INITIAL
    && forall i :: 0 <= i < |es| ==>
         Enabled(trace[i], es[i]) && Undisturbed(trace[i], es[i]) && trace[i + 1] == Apply(trace[i], es[i])
  }

  // ---------------------------------------------------------------- one user's account

  datatype Account = Account(
    metered: int, pending: int, taken: int, inHand: int, saved: int, dropped: int, others: int, stored: int)

  function InHand(st: State, u: Name): int {
    if st.hand.Some? && st.hand.value.user == u then st.hand.value.traffic else 0
  }

  function Of(st: State, u: Name): Account {
    Account(Get(st.ledger.metered, u), Get(st.pending, u), Get(st.taken, u), InHand(st, u), Get(st.ledger.saved, u),
            Get(st.ledger.dropped, u), Get(st.ledger.others, u), Get(st.store, u))
  }

  /** What a step does to one user's account. */
  datatype Change = Nothing | Meter(n: int) | Take | Drop | Hold | Save(record: int) | Other(value: int)

  function ChangeOf(st: State, e: Event, u: Name): Change
    requires Enabled(st, e)
  {
    match e
    case Adds(v, n) => if v == u then Meter(n) else Nothing
    case Snapshots => Take
    case Skips(v) => if v == u then Drop else Nothing
    case Reads(v) => if v != u then Nothing else if u in st.store then Hold else Drop
    case Saves => if st.hand.value.user == u then Save(st.hand.value.record) else Nothing
    case Writes(v, value) => if v != u then Nothing else Other(if value.Some? then value.value else 0)
  }

  function Changed(a: Account, c: Change): Account {
    match c
    case Nothing => a
    case Meter(n) => a.(metered := a.metered + n, pending := Wrap64(a.pending + n))
    case Take => a.(pending := 0, taken := a.pending)
    case Drop => a.(taken := 0, dropped := a.dropped + a.taken)
    case Hold => a.(taken := 0, inHand := a.taken)
    case Save(record) => a.(inHand := 0, saved := a.saved + a.inHand, stored := Wrap64(record + a.inHand))
    case Other(value) => a.(others := a.others + value - a.stored, stored := value)
  }

  /** The timer takes counters when it has none left, and a record when it holds none. */
  predicate Fits(a: Account, c: Change) {
    && (c.Take? ==> a.taken == 0)
    && (c.Hold? ==> a.inHand == 0)
    && (c.Other? ==> -TWO_63 <= c.value < TWO_63)
  }

  lemma AccountMoved(st: State, e: Event, u: Name)
    requires Enabled(st, e)
    ensures Of(Apply(st, e), u) == Changed(Of(st, u), ChangeOf(st, e, u)) && Fits(Of(st, u), ChangeOf(st, e, u))
  {
  }

  /** All counters are signed 64-bit, so they add up to what was metered modulo 2^64. */
  predicate Balanced(a: Account) {
    && Wrap64(a.metered) == Wrap64(a.pending + a.taken + a.inHand + a.saved + a.dropped)
    && a.stored == Wrap64(a.others + a.saved)
  }

  lemma StaysBalanced(a: Account, c: Change)
    requires Balanced(a) && Fits(a, c) && (c.Save? ==> c.record == a.stored)
    ensures Balanced(Changed(a, c))
  {
    match c
    case Meter(n) =>
      var rest := a.taken + a.inHand + a.saved + a.dropped;
      WrapAdds(a.metered, a.pending + rest, n);
      WrapAdds(a.pending + n, a.pending + n, rest);
    case Save(_) => WrapAdds(a.others + a.saved, a.others + a.saved, a.inHand);
    case Other(value) => WrapAdds(a.others + a.saved, a.stored, value - a.stored);
    case _ =>
  }

  /** What the timer holds in its hand is still what is stored. */
  predicate HandFresh(st: State) {
    st.hand.Some? ==> st.hand.value.user in st.store && st.store[st.hand.value.user] == st.hand.value.record
  }

  ghost predicate Inv(st: State) {
    HandFresh(st) && forall u: Name :: Balanced(Of(st, u))
  }

  lemma StepKeepsInv(st: State, e: Event)
    requires Enabled(st, e) && Undisturbed(st, e) && Inv(st)
    ensures Inv(Apply(st, e))
  {
    forall u ensures Balanced(Of(Apply(st, e), u)) {
      AccountMoved(st, e, u);
      StaysBalanced(Of(st, u), ChangeOf(st, e, u));
    }
  }

  lemma NothingAtFirst(u: Name)
    ensures Of(INITIAL, u) == Account(0, 0, 0, 0, 0, 0, 0, 0)
  {
  }

  lemma InitialInv()
    ensures Inv(INITIAL)
  {
    forall u ensures Balanced(Of(INITIAL, u)) {
      NothingAtFirst(u);
    }
  }

  lemma {:induction false} RunKeepsInv(trace: seq<State>, es: seq<Event>, n: nat)
    requires Run(trace, es) && n <= |es|
    ensures Inv(trace[n])
  {
    if n == 0 {
      InitialInv();
    } else {
      RunKeepsInv(trace, es, n - 1);
      StepKeepsInv(trace[n - 1], es[n - 1]);
    }
  }

  // ---------------------------------------------------------------- conservation

  /** At every step of every run, all that was metered for a user is pending, taken, in hand, saved or dropped (modulo
      2^64), and the stored counter is what was saved on top of what other writers made of it. */
  lemma TrafficConserved(trace: seq<State>, es: seq<Event>, n: nat, u: Name)
    requires Run(trace, es) && n <= |es|
    ensures var st := trace[n];
            && Wrap64(Get(st.ledger.metered, u)) ==
               Wrap64(Get(st.pending, u) + Get(st.taken, u) + InHand(st, u) +
                      Get(st.ledger.saved, u) + Get(st.ledger.dropped, u))
            && Get(st.store, u) == Wrap64(Get(st.ledger.others, u) + Get(st.ledger.saved, u))
  {
    RunKeepsInv(trace, es, n);
    assert Balanced(Of(trace[n], u));
  }

  /** A save adds exactly the traffic it carries if and only if the stored counter is still the one it read. */
  lemma SaveIsExact(st: State)
    requires st.hand.Some?
    ensures var Held(u, traffic, record) := st.hand.value;
            Get(Apply(st, Saves).store, u) == Wrap64(Get(st.store, u) + traffic) <==>
            Wrap64(record) == Wrap64(Get(st.store, u))
  {
    var Held(u, traffic, record) := st.hand.value;
    if Wrap64(record) == Wrap64(Get(st.store, u)) {
      WrapAdds(record, Get(st.store, u), traffic);
    }
    if Wrap64(record + traffic) == Wrap64(Get(st.store, u) + traffic) {
      WrapAdds(record + traffic, Get(st.store, u) + traffic, -traffic);
    }
  }

  /** Nothing wraps: the parts add up as plain integers, and none is negative. */
  predicate Exact(a: Account) {
    && a.metered == a.pending + a.taken + a.inHand + a.saved + a.dropped
    && a.pending >= 0 && a.taken >= 0 && a.inHand >= 0 && a.saved >= 0 && a.dropped >= 0
  }

  lemma StaysExact(a: Account, c: Change)
    requires Exact(a) && Fits(a, c)
    requires c.Meter? ==> c.n >= 0 && a.metered + c.n < TWO_63
    ensures Exact(Changed(a, c))
  {
  }

  /** Only lengths are metered, and the user's total fits 63 bits. */
  ghost predicate Fitting(trace: seq<State>, es: seq<Event>, n: nat, u: Name)
    requires n <= |es| && |trace| == |es| + 1
  {
    && (forall i :: 0 <= i < n && es[i].Adds? ==> es[i].n >= 0)
    && Get(trace[n].ledger.metered, u) < TWO_63
  }

  lemma FittingBefore(trace: seq<State>, es: seq<Event>, n: nat, u: Name)
    requires Run(trace, es) && n < |es| && Fitting(trace, es, n + 1, u)
    ensures Fitting(trace, es, n, u)
    ensures var c := ChangeOf(trace[n], es[n], u); c.Meter? ==> c.n >= 0 && Of(trace[n], u).metered + c.n < TWO_63
  {
    AccountMoved(trace[n], es[n], u);
  }

  /** While a user's metered total fits 63 bits, conservation is exact. */
  lemma {:induction false} ExactlyConserved(trace: seq<State>, es: seq<Event>, n: nat, u: Name)
    requires Run(trace, es) && n <= |es| && Fitting(trace, es, n, u)
    ensures Exact(Of(trace[n], u))
  {
    if n == 0 {
      NothingAtFirst(u);
    } else {
      FittingBefore(trace, es, n - 1, u);
      ExactlyConserved(trace, es, n - 1, u);
      AccountMoved(trace[n - 1], es[n - 1], u);
      StaysExact(Of(trace[n - 1], u), ChangeOf(trace[n - 1], es[n - 1], u));
    }
  }

  lemma NoDrop(st: State, e: Event, u: Name)
    requires Enabled(st, e) && Of(st, u).taken >= 0 && (e == Reads(u) ==> u in st.store)
    ensures Changed(Of(st, u), ChangeOf(st, e, u)).dropped == Of(st, u).dropped
  {
  }

  /** Then nothing is dropped of a user whose record is there whenever the timer reads it. */
  lemma {:induction false} NothingDropped(trace: seq<State>, es: seq<Event>, n: nat, u: Name)
    requires Run(trace, es) && n <= |es| && Fitting(trace, es, n, u)
    requires forall i :: 0 <= i < n && es[i] == Reads(u) ==> u in trace[i].store
    ensures Get(trace[n].ledger.dropped, u) == 0
  {
    if n == 0 {
      NothingAtFirst(u);
    } else {
      FittingBefore(trace, es, n - 1, u);
      NothingDropped(trace, es, n - 1, u);
      ExactlyConserved(trace, es, n - 1, u);
      AccountMoved(trace[n - 1], es[n - 1], u);
      NoDrop(trace[n - 1], es[n - 1], u);
    }
  }

  /** The record holds all that was metered and is not pending, taken or in hand. */
  predicate AllStored(a: Account) {
    a.stored == Wrap64(a.others + (a.metered - a.pending - a.taken - a.inHand))
  }

  lemma SavedIsTheRest(a: Account)
    requires Exact(a) && Balanced(a) && a.dropped == 0
    ensures AllStored(a)
  {
    assert a.saved == a.metered - a.pending - a.taken - a.inHand;
  }

  /** So all that left the counters of such a user is in its record. */
  lemma MeteredIsStored(trace: seq<State>, es: seq<Event>, n: nat, u: Name)
    requires Run(trace, es) && n <= |es| && Fitting(trace, es, n, u)
    requires forall i :: 0 <= i < n && es[i] == Reads(u) ==> u in trace[i].store
    ensures AllStored(Of(trace[n], u))
  {
    NothingDropped(trace, es, n, u);
    ExactlyConserved(trace, es, n, u);
    RunKeepsInv(trace, es, n);
    assert Of(trace[n], u).dropped == 0;
    SavedIsTheRest(Of(trace[n], u));
  }
}
