/** The rewards ledger (src/contexts/PointsContext.tsx): the points balance and
    the append-only coupon list of the active user, mirrored to the browser's
    key-value store under `points_<id>` and `cupones_<id>`.

    The pure part states what each operation does to a `LedgerState`; the class
    `PointsProvider` holds the state the React provider keeps and is proved to
    follow the pure part step by step. React runs the load effect and the two
    save effects after a render; here one call does the load and then the saves,
    and every operation is one uninterrupted step. */
module Points {
  import opened Types
  import Text

  /** Balance given to a user who has no saved balance. */
  const DefaultPoints := 850

  function PointsKey(id: string): string { "points_" + id }

  function CuponesKey(id: string): string { "cupones_" + id }

  /** The two records of one user never share a key, and each key determines
      the user id it belongs to. */
  lemma KeysDistinct(a: string, b: string)
    ensures PointsKey(a) != CuponesKey(b)
    ensures PointsKey(a) == PointsKey(b) ==> a == b
    ensures CuponesKey(a) == CuponesKey(b) ==> a == b
  {
    assert PointsKey(a)[0] == 'p' && CuponesKey(b)[0] == 'c';
    if PointsKey(a) == PointsKey(b) {
      assert a == PointsKey(a)[7..] && b == PointsKey(b)[7..];
    }
    if CuponesKey(a) == CuponesKey(b) {
      assert a == CuponesKey(a)[8..] && b == CuponesKey(b)[8..];
    }
  }

  datatype LedgerState = LedgerState(points: int, cupones: seq<Cupon>)

  /** The state with no active user, which is also the initial state. */
  const Empty := LedgerState(0, [])

  /** The coupon `redeemPrize` creates, with the clock reading `now` (`Date.now()`)
      and its ISO rendering `fecha` (`new Date().toISOString()`) passed in. */
  function NewCupon(premio: Premio, now: nat, fecha: string): (c: Cupon)
    ensures c.premio == premio && c.fechaCanje == fecha
    ensures Text.IsPrefix("cupon_", c.id)
  {
    var c := Cupon("cupon_" + Text.NatToString(now), premio, fecha);
    assert c.id[..6] == "cupon_";
    c
  }

  /** `addPoints(amount, reason)`: the reason is not used. */
  function Earn(s: LedgerState, amount: int, reason: string): LedgerState
  {
    LedgerState(s.points + amount, s.cupones)
  }

  datatype RedeemResult = RedeemResult(ok: bool, state: LedgerState)

  /** `redeemPrize(premio)`: refuse when the balance is short, otherwise deduct
      the cost and append one coupon. */
  function Redeem(s: LedgerState, premio: Premio, now: nat, fecha: string): RedeemResult
  {
    if s.points < premio.costo then RedeemResult(false, s)
    else RedeemResult(true, LedgerState(s.points - premio.costo, s.cupones + [NewCupon(premio, now, fecha)]))
  }

  /** What `redeemPrize` returns and does, in both outcomes. */
  lemma RedeemOutcome(s: LedgerState, premio: Premio, now: nat, fecha: string)
    ensures Redeem(s, premio, now, fecha).ok <==> s.points >= premio.costo
    ensures !Redeem(s, premio, now, fecha).ok ==> Redeem(s, premio, now, fecha).state == s
    ensures Redeem(s, premio, now, fecha).ok ==>
      var t := Redeem(s, premio, now, fecha).state;
      && t.points == s.points - premio.costo
      && |t.cupones| == |s.cupones| + 1
      && t.cupones[..|s.cupones|] == s.cupones
      && t.cupones[|s.cupones|].premio == premio
  {
    var t := Redeem(s, premio, now, fecha).state;
    if s.points >= premio.costo {
      assert t.cupones[..|s.cupones|] == s.cupones;
    }
  }

  /** One call of the ledger's operations. */
  datatype Op =
    | AddPoints(amount: int, reason: string)
    | RedeemPrize(premio: Premio, now: nat, fecha: string)

  function Step(s: LedgerState, op: Op): LedgerState
  {
    match op
    case AddPoints(amount, reason) => Earn(s, amount, reason)
    case RedeemPrize(premio, now, fecha) => Redeem(s, premio, now, fecha).state
  }

  /** The state after a sequence of calls, oldest first. */
  function Run(s: LedgerState, ops: seq<Op>): LedgerState
    decreases |ops|
  {
    if ops == [] then s else Step(Run(s, ops[..|ops| - 1]), ops[|ops| - 1])
  }

  /** The amount one call earns. */
  function EarnOf(op: Op): int
  {
    match op
    case AddPoints(a, _) => a
    case RedeemPrize(_, _, _) => 0
  }

  /** Sum of the amounts of the `addPoints` calls. */
  function Earned(ops: seq<Op>): int
    decreases |ops|
  {
    if ops == [] then 0 else Earned(ops[..|ops| - 1]) + EarnOf(ops[|ops| - 1])
  }

  /** Sum of the costs of the prizes the coupons were redeemed for. */
  function Costs(cs: seq<Cupon>): int
    decreases |cs|
  {
    if cs == [] then 0 else Costs(cs[..|cs| - 1]) + cs[|cs| - 1].premio.costo
  }

  predicate EarnsNonNegative(ops: seq<Op>)
  {
    forall i :: 0 <= i < |ops| && ops[i].AddPoints? ==> ops[i].amount >= 0
  }

  /** Adding one coupon keeps the old ones as a prefix and adds its cost to
      the coupons from position `n` on. */
  lemma CostsSnoc(cs: seq<Cupon>, c: Cupon, n: nat)
    requires n <= |cs|
    ensures (cs + [c])[..|cs|] == cs
    ensures Costs((cs + [c])[n..]) == Costs(cs[n..]) + c.premio.costo
  {
    assert (cs + [c])[n..] == cs[n..] + [c];
    assert (cs[n..] + [c])[..|cs[n..]|] == cs[n..];
  }

  /** One call keeps the coupons held as a prefix, and keeps the balance plus
      the cost of the coupons from position `n` on, up to what it earns. */
  lemma StepConserves(t: LedgerState, op: Op, n: nat)
    requires n <= |t.cupones|
    ensures |t.cupones| <= |Step(t, op).cupones|
    ensures Step(t, op).cupones[..|t.cupones|] == t.cupones
    ensures Step(t, op).points + Costs(Step(t, op).cupones[n..]) == t.points + EarnOf(op) + Costs(t.cupones[n..])
  {
    match op
    case AddPoints(a, r) =>
    case RedeemPrize(premio, now, fecha) =>
      if t.points >= premio.costo {
        CostsSnoc(t.cupones, NewCupon(premio, now, fecha), n);
      }
  }

  /** Conservation: the coupons only grow at the end, and the balance is the
      start balance plus everything earned minus the cost of every coupon
      appended. */
  lemma {:induction false} RunConserves(s: LedgerState, ops: seq<Op>)
    ensures |s.cupones| <= |Run(s, ops).cupones|
    ensures Run(s, ops).cupones[..|s.cupones|] == s.cupones
    ensures Run(s, ops).points == s.points + Earned(ops) - Costs(Run(s, ops).cupones[|s.cupones|..])
    decreases |ops|
  {
    if ops != [] {
      var init := ops[..|ops| - 1];
      var mid := Run(s, init);
      RunConserves(s, init);
      StepConserves(mid, ops[|ops| - 1], |s.cupones|);
      var after := Run(s, ops).cupones;
      assert after[..|s.cupones|] == after[..|mid.cupones|][..|s.cupones|];
    }
  }

  /** Every coupon appended by a run carries the prize of one of its
      `redeemPrize` calls. */
  lemma {:induction false} RunCouponsFromCalls(s: LedgerState, ops: seq<Op>, k: nat)
    requires |s.cupones| <= k < |Run(s, ops).cupones|
    ensures exists i :: 0 <= i < |ops| && ops[i].RedeemPrize? && ops[i].premio == Run(s, ops).cupones[k].premio
    decreases |ops|
  {
    RunConserves(s, ops);
    var init := ops[..|ops| - 1];
    var mid := Run(s, init);
    RunConserves(s, init);
    if k < |mid.cupones| {
      assert Run(s, ops).cupones[k] == mid.cupones[k];
      RunCouponsFromCalls(s, init, k);
      var i :| 0 <= i < |init| && init[i].RedeemPrize? && init[i].premio == mid.cupones[k].premio;
      assert ops[i] == init[i];
    } else {
      var last := ops[|ops| - 1];
      assert last.RedeemPrize?;
      assert Run(s, ops).cupones[k].premio == last.premio;
    }
  }

  /** Under calls that never earn a negative amount, a non-negative balance
      never goes negative. */
  lemma {:induction false} RunNonNegative(s: LedgerState, ops: seq<Op>)
    requires s.points >= 0
    requires EarnsNonNegative(ops)
    ensures Run(s, ops).points >= 0
    decreases |ops|
  {
    if ops != [] {
      var init := ops[..|ops| - 1];
      assert EarnsNonNegative(init) by {
        forall i | 0 <= i < |init| && init[i].AddPoints? ensures init[i].amount >= 0 {
          assert init[i] == ops[i];
        }
      }
      RunNonNegative(s, init);
    }
  }

  /** A prize the balance does not cover keeps being refused: any number of
      repeated attempts leave the state as it was. */
  lemma {:induction false} RepeatedRefusal(s: LedgerState, premio: Premio, ops: seq<Op>)
    requires s.points < premio.costo
    requires forall i :: 0 <= i < |ops| ==> ops[i].RedeemPrize? && ops[i].premio == premio
    ensures Run(s, ops) == s
    decreases |ops|
  {
    if ops != [] {
      RepeatedRefusal(s, premio, ops[..|ops| - 1]);
      assert ops[|ops| - 1].RedeemPrize?;
    }
  }

  /** Earning `n` and then `m` gives the balance of earning `n + m`. */
  lemma EarnTwice(s: LedgerState, n: int, m: int, r1: string, r2: string, r: string)
    ensures Run(s, [AddPoints(n, r1), AddPoints(m, r2)]) == Run(s, [AddPoints(n + m, r)])
  {
    assert [AddPoints(n, r1), AddPoints(m, r2)][..1] == [AddPoints(n, r1)];
    assert [AddPoints(n + m, r)][..0] == [];
  }

  /** The state the user-change effect loads: nothing with no user; otherwise
      the saved balance or the default, and the saved coupons or, when there
      are none, the coupons already held. */
  function Load(storage: map<string, Stored>, user: Option<Usuario>, current: LedgerState): LedgerState
  {
    match user
    case None => Empty
    case Some(u) =>
      var points :=
        if PointsKey(u.id) in storage && storage[PointsKey(u.id)].StoredPoints?
        then storage[PointsKey(u.id)].n else DefaultPoints;
      var cupones :=
        if CuponesKey(u.id) in storage && storage[CuponesKey(u.id)].StoredCupones?
        then storage[CuponesKey(u.id)].cs else current.cupones;
      LedgerState(points, cupones)
  }

  /** Loading for no user gives the empty ledger whatever was held before. */
  lemma LoadNoUser(storage: map<string, Stored>, current: LedgerState)
    ensures Load(storage, None, current) == Empty
  {
  }

  /** A user with no saved records starts at 850 and keeps the coupons held
      so far; after no user (or at start) these are none. */
  lemma LoadNewUser(storage: map<string, Stored>, u: Usuario, current: LedgerState)
    requires PointsKey(u.id) !in storage && CuponesKey(u.id) !in storage
    ensures Load(storage, Some(u), current) == LedgerState(DefaultPoints, current.cupones)
    ensures current == Empty ==> Load(storage, Some(u), current) == LedgerState(850, [])
  {
  }

  /** A user with saved records gets the saved balance and the saved coupons,
      whatever was held before. */
  lemma LoadSaved(storage: map<string, Stored>, u: Usuario, current: LedgerState, n: int, cs: seq<Cupon>)
    requires PointsKey(u.id) in storage && storage[PointsKey(u.id)] == StoredPoints(n)
    requires CuponesKey(u.id) in storage && storage[CuponesKey(u.id)] == StoredCupones(cs)
    ensures Load(storage, Some(u), current) == LedgerState(n, cs)
  {
  }

  /** The records are written after each change, only while a user is active. */
  function Persist(storage: map<string, Stored>, user: Option<Usuario>, s: LedgerState): map<string, Stored>
  {
    match user
    case None => storage
    case Some(u) => storage[PointsKey(u.id) := StoredPoints(s.points)][CuponesKey(u.id) := StoredCupones(s.cupones)]
  }

  /** While a user is active, the store holds that user's balance and coupons. */
  predicate Mirrored(storage: map<string, Stored>, user: Option<Usuario>, s: LedgerState)
  {
    user.Some? ==>
      && PointsKey(user.value.id) in storage && storage[PointsKey(user.value.id)] == StoredPoints(s.points)
      && CuponesKey(user.value.id) in storage && storage[CuponesKey(user.value.id)] == StoredCupones(s.cupones)
  }

  /** Writing the records mirrors the state and touches no other key. */
  lemma PersistMirrors(storage: map<string, Stored>, user: Option<Usuario>, s: LedgerState)
    ensures Mirrored(Persist(storage, user, s), user, s)
    ensures user.Some? ==> forall k :: k != PointsKey(user.value.id) && k != CuponesKey(user.value.id) ==>
      (k in Persist(storage, user, s) <==> k in storage) &&
      (k in storage ==> Persist(storage, user, s)[k] == storage[k])
    ensures user.None? ==> Persist(storage, user, s) == storage
  {
    if user.Some? {
      KeysDistinct(user.value.id, user.value.id);
    }
  }

  /** Writing the records again when they are already mirrored changes nothing. */
  lemma PersistIdle(storage: map<string, Stored>, user: Option<Usuario>, s: LedgerState)
    requires Mirrored(storage, user, s)
    ensures Persist(storage, user, s) == storage
  {
    if user.Some? {
      var u := user.value;
      KeysDistinct(u.id, u.id);
      var p := Persist(storage, user, s);
      assert p.Keys == storage.Keys;
      assert forall k :: k in p ==> p[k] == storage[k];
    }
  }

  /** Loading a user's records right after saving them gives back the state
      saved: a reload restores the ledger. */
  lemma ReloadRestores(storage: map<string, Stored>, u: Usuario, s: LedgerState, current: LedgerState)
    ensures Load(Persist(storage, Some(u), s), Some(u), current) == s
  {
    KeysDistinct(u.id, u.id);
  }

  /** The state of `PointsProvider`. The ghost fields record the state right
      after the last change of user and every ledger call since, so that the
      current state is always the run of those calls. */
  class PointsProvider {
    var user: Option<Usuario>
    var points: int
    var cupones: seq<Cupon>
    var storage: map<string, Stored>
    ghost var loaded: LedgerState
    ghost var history: seq<Op>

    function State(): LedgerState
      reads this
    {
      LedgerState(points, cupones)
    }

    ghost predicate Valid()
      reads this
    {
      Mirrored(storage, user, State()) && State() == Run(loaded, history)
    }

    /** Mounting with no user: balance 0 and no coupons. */
    constructor (storage0: map<string, Stored>)
      ensures Valid()
      ensures user == None && points == 0 && cupones == [] && storage == storage0
      ensures history == []
    {
      user := None;
      points := 0;
      cupones := [];
      storage := storage0;
      loaded := Empty;
      history := [];
    }

    /** The effect that runs when the authenticated user changes, followed by
        the two save effects. */
    method OnUserChange(u: Option<Usuario>)
      requires Valid()
      modifies this
      ensures Valid()
      ensures user == u
      ensures State() == Load(old(storage), u, old(State()))
      ensures storage == Persist(old(storage), u, State())
      ensures loaded == State() && history == []
    {
      var s := Load(storage, u, State());
      user := u;
      points, cupones := s.points, s.cupones;
      storage := Persist(storage, u, s);
      PersistMirrors(old(storage), u, s);
      loaded := s;
      history := [];
    }

    /** `addPoints(amount, reason)`. */
    method AddPoints(amount: int, reason: string)
      requires Valid()
      modifies this
      ensures Valid()
      ensures user == old(user)
      ensures points == old(points) + amount && cupones == old(cupones)
      ensures storage == Persist(old(storage), user, State())
      ensures loaded == old(loaded) && history == old(history) + [Op.AddPoints(amount, reason)]
    {
      points := points + amount;
      storage := Persist(storage, user, State());
      PersistMirrors(old(storage), user, State());
      history := history + [Op.AddPoints(amount, reason)];
      assert history[..|history| - 1] == old(history);
    }

    /** `redeemPrize(premio)`, with the clock passed in. */
    method RedeemPrize(premio: Premio, now: nat, fecha: string) returns (ok: bool)
      requires Valid()
      modifies this
      ensures Valid()
      ensures user == old(user)
      ensures ok <==> old(points) >= premio.costo
      ensures !ok ==> points == old(points) && cupones == old(cupones) && storage == old(storage)
      ensures ok ==> points == old(points) - premio.costo && cupones == old(cupones) + [NewCupon(premio, now, fecha)]
      ensures ok ==> storage == Persist(old(storage), user, State())
      ensures loaded == old(loaded) && history == old(history) + [Op.RedeemPrize(premio, now, fecha)]
    {
      history := history + [Op.RedeemPrize(premio, now, fecha)];
      assert history[..|history| - 1] == old(history);
      if points < premio.costo {
        return false;
      }
      points := points - premio.costo;
      cupones := cupones + [NewCupon(premio, now, fecha)];
      storage := Persist(storage, user, State());
      PersistMirrors(old(storage), user, State());
      ok := true;
    }
  }

  /** While a user is active, loading from the provider's store gives back
      its current state, so a reload at any point restores what is shown. */
  lemma ProviderReloads(p: PointsProvider, current: LedgerState)
    requires p.Valid() && p.user.Some?
    ensures Load(p.storage, p.user, current) == p.State()
  {
    LoadSaved(p.storage, p.user.value, current, p.points, p.cupones);
  }
}
