/** The rewards page (src/pages/UCPuntos.tsx): the leaderboard with the live
    balance laid over the snapshot and sorted by descending points (stable, as
    `Array.prototype.sort` is), the rank labels, the affordability of a prize,
    and the redeem button's handler in front of the ledger. */
module Ranking {
  import opened Types
  import Seqs
  import Text
  import Points

  /** The leaderboard row that belongs to the active user: same display name. */
  predicate IsCurrentUser(e: UCPuntos, user: Option<Usuario>)
  {
    user.Some? && e.nombre == user.value.nombre
  }

  /** `updatedPuntos`: the snapshot with the live balance in the active user's rows. */
  function UpdatedPuntos(snapshot: seq<UCPuntos>, user: Option<Usuario>, points: int): (r: seq<UCPuntos>)
    ensures |r| == |snapshot|
    ensures forall i :: 0 <= i < |r| ==>
      && r[i].userId == snapshot[i].userId
      && r[i].nombre == snapshot[i].nombre
      && r[i].puntos == (if IsCurrentUser(snapshot[i], user) then points else snapshot[i].puntos)
  {
    seq(|snapshot|, i requires 0 <= i < |snapshot| =>
      if IsCurrentUser(snapshot[i], user) then snapshot[i].(puntos := points) else snapshot[i])
  }

  /** Inserts `x` in front of the first row scoring no more than it. */
  function InsertDesc(x: UCPuntos, s: seq<UCPuntos>): seq<UCPuntos>
  {
    if s == [] then [x]
    else if x.puntos >= s[0].puntos then [x] + s
    else [s[0]] + InsertDesc(x, s[1..])
  }

  /** `[...s].sort((a, b) => b.puntos - a.puntos)`. */
  function SortDesc(s: seq<UCPuntos>): seq<UCPuntos>
  {
    if s == [] then [] else InsertDesc(s[0], SortDesc(s[1..]))
  }

  /** `sortedPuntos`. */
  function SortedPuntos(snapshot: seq<UCPuntos>, user: Option<Usuario>, points: int): seq<UCPuntos>
  {
    SortDesc(UpdatedPuntos(snapshot, user, points))
  }

  predicate NonIncreasing(s: seq<UCPuntos>)
  {
    forall i, j :: 0 <= i < j < |s| ==> s[i].puntos >= s[j].puntos
  }

  function HasScore(k: int): UCPuntos -> bool
  {
    (e: UCPuntos) => e.puntos == k
  }

  /** The rows with score `k`, in order. */
  function WithScore(s: seq<UCPuntos>, k: int): seq<UCPuntos>
  {
    Seqs.Filter(s, HasScore(k))
  }

  lemma {:induction false} InsertDescPermutation(x: UCPuntos, s: seq<UCPuntos>)
    ensures multiset(InsertDesc(x, s)) == multiset(s) + multiset{x}
  {
    if s != [] && x.puntos < s[0].puntos {
      InsertDescPermutation(x, s[1..]);
      assert s == [s[0]] + s[1..];
    }
  }

  predicate AtMost(s: seq<UCPuntos>, b: int)
  {
    forall i :: 0 <= i < |s| ==> s[i].puntos <= b
  }

  /** A row scoring at least everything after it extends a sorted ranking. */
  lemma ConsSorted(h: UCPuntos, t: seq<UCPuntos>)
    requires NonIncreasing(t) && AtMost(t, h.puntos)
    ensures NonIncreasing([h] + t)
  {
    var r := [h] + t;
    forall i, j | 0 <= i < j < |r| ensures r[i].puntos >= r[j].puntos {
      assert r[j] == t[j - 1];
      if i > 0 {
        assert r[i] == t[i - 1];
      }
    }
  }

  lemma {:induction false} InsertDescAtMost(x: UCPuntos, s: seq<UCPuntos>, b: int)
    requires AtMost(s, b) && x.puntos <= b
    ensures AtMost(InsertDesc(x, s), b)
  {
    if s != [] && x.puntos < s[0].puntos {
      var tail := s[1..];
      assert AtMost(tail, b) by {
        forall i | 0 <= i < |tail| ensures tail[i].puntos <= b {
          assert tail[i] == s[i + 1];
        }
      }
      InsertDescAtMost(x, tail, b);
      var r := [s[0]] + InsertDesc(x, tail);
      forall i | 0 < i < |r| ensures r[i].puntos <= b {
        assert r[i] == InsertDesc(x, tail)[i - 1];
      }
    }
  }

  lemma {:induction false} InsertDescSorted(x: UCPuntos, s: seq<UCPuntos>)
    requires NonIncreasing(s)
    ensures NonIncreasing(InsertDesc(x, s))
  {
    if s == [] {
    } else if x.puntos >= s[0].puntos {
      assert AtMost(s, x.puntos) by {
        forall i | 0 <= i < |s| ensures s[i].puntos <= x.puntos {
          assert i == 0 || s[0].puntos >= s[i].puntos;
        }
      }
      ConsSorted(x, s);
    } else {
      var tail := s[1..];
      assert NonIncreasing(tail) && AtMost(tail, s[0].puntos) by {
        forall i | 0 <= i < |tail| ensures tail[i] == s[i + 1] {}
      }
      InsertDescSorted(x, tail);
      InsertDescAtMost(x, tail, s[0].puntos);
      ConsSorted(s[0], InsertDesc(x, tail));
    }
  }

  /** Inserting puts `x` in front of every row with its score. */
  lemma {:induction false} InsertDescStable(x: UCPuntos, s: seq<UCPuntos>, k: int)
    ensures WithScore(InsertDesc(x, s), k) == (if x.puntos == k then [x] else []) + WithScore(s, k)
  {
    if s == [] {
      Seqs.FilterCons(x, [], HasScore(k));
    } else if x.puntos >= s[0].puntos {
      Seqs.FilterCons(x, s, HasScore(k));
    } else {
      var rest := InsertDesc(x, s[1..]);
      InsertDescStable(x, s[1..], k);
      assert s == [s[0]] + s[1..];
      Seqs.FilterCons(s[0], rest, HasScore(k));
      Seqs.FilterCons(s[0], s[1..], HasScore(k));
      if x.puntos == k {
        assert s[0].puntos != k;
      }
    }
  }

  /** The ranking is ordered by non-increasing points, is a permutation of
      its input, and rows with equal points keep their input order. */
  lemma {:induction false} SortDescCorrect(s: seq<UCPuntos>)
    ensures NonIncreasing(SortDesc(s))
    ensures multiset(SortDesc(s)) == multiset(s)
    ensures forall k :: WithScore(SortDesc(s), k) == WithScore(s, k)
  {
    if s != [] {
      SortDescCorrect(s[1..]);
      InsertDescSorted(s[0], SortDesc(s[1..]));
      InsertDescPermutation(s[0], SortDesc(s[1..]));
      assert s == [s[0]] + s[1..];
      forall k ensures WithScore(SortDesc(s), k) == WithScore(s, k) {
        InsertDescStable(s[0], SortDesc(s[1..]), k);
        Seqs.FilterCons(s[0], s[1..], HasScore(k));
      }
    }
  }

  /** The ranking holds the snapshot's users, each row once, with only the
      active user's rows carrying the live balance. */
  lemma RankingEntries(snapshot: seq<UCPuntos>, user: Option<Usuario>, points: int)
    ensures multiset(SortedPuntos(snapshot, user, points)) == multiset(UpdatedPuntos(snapshot, user, points))
    ensures |SortedPuntos(snapshot, user, points)| == |snapshot|
    ensures NonIncreasing(SortedPuntos(snapshot, user, points))
    ensures forall k :: WithScore(SortedPuntos(snapshot, user, points), k) == WithScore(UpdatedPuntos(snapshot, user, points), k)
  {
    var u := UpdatedPuntos(snapshot, user, points);
    SortDescCorrect(u);
    assert |SortDesc(u)| == |multiset(SortDesc(u))| == |multiset(u)| == |u|;
  }

  /** The score a row displays: the live balance on the active user's row. */
  function DisplayedPuntos(e: UCPuntos, user: Option<Usuario>, points: int): int
  {
    if IsCurrentUser(e, user) then points else e.puntos
  }

  /** Every row of the sorted ranking displays exactly the score it was sorted
      by, so the display override agrees with the order. */
  lemma DisplayAgreesWithOrder(snapshot: seq<UCPuntos>, user: Option<Usuario>, points: int, i: nat)
    requires i < |SortedPuntos(snapshot, user, points)|
    ensures DisplayedPuntos(SortedPuntos(snapshot, user, points)[i], user, points) == SortedPuntos(snapshot, user, points)[i].puntos
  {
    var u := UpdatedPuntos(snapshot, user, points);
    SortDescCorrect(u);
    var e := SortDesc(u)[i];
    assert e in multiset(SortDesc(u));
    assert e in u;
    var m :| 0 <= m < |u| && u[m] == e;
  }

  /** `getRankIcon` for the row at position `index`. */
  function RankIcon(index: nat): string
  {
    if index == 0 then "🥇"
    else if index == 1 then "🥈"
    else if index == 2 then "🥉"
    else Text.NatToString(index + 1) + "."
  }

  /** The first three positions get the gold, silver and bronze medals; a
      later position gets the decimal digits of its 1-based number followed by
      '.'. */
  lemma RankIconShape(index: nat)
    ensures index == 0 ==> RankIcon(index) == "🥇"
    ensures index == 1 ==> RankIcon(index) == "🥈"
    ensures index == 2 ==> RankIcon(index) == "🥉"
    ensures index < 3 ==> |RankIcon(index)| == 1
    ensures index >= 3 ==> |RankIcon(index)| >= 2 && RankIcon(index)[|RankIcon(index)| - 1] == '.'
    ensures index >= 3 ==> var digits := RankIcon(index)[..|RankIcon(index)| - 1];
      && (forall i :: 0 <= i < |digits| ==> '0' <= digits[i] <= '9')
      && Text.DigitsValue(digits) == index + 1
  {
    if index >= 3 {
      var d := Text.NatToString(index + 1);
      assert RankIcon(index)[..|RankIcon(index)| - 1] == d;
    }
  }

  /** Distinct positions get distinct labels. */
  lemma RankIconInjective(i: nat, j: nat)
    requires RankIcon(i) == RankIcon(j)
    ensures i == j
  {
    RankIconShape(i);
    RankIconShape(j);
    if i >= 3 && j >= 3 {
      var a, b := Text.NatToString(i + 1), Text.NatToString(j + 1);
      assert a == RankIcon(i)[..|a|];
      assert |a| == |b|;
      assert b == RankIcon(j)[..|b|];
      Text.NatToStringInjective(i + 1, j + 1);
    }
  }

  /** `canAfford`: the redeem button is enabled. */
  function CanAfford(points: int, premio: Premio): bool
  {
    points >= premio.costo
  }

  /** The button is enabled exactly when the ledger would accept the redemption. */
  lemma CanAffordIffRedeemable(s: Points.LedgerState, premio: Premio, now: nat, fecha: string)
    ensures CanAfford(s.points, premio) <==> Points.Redeem(s, premio, now, fecha).ok
  {
  }

  /** The coupon-count badge of the "Mis Cupones" tab: shown only with coupons. */
  function CouponBadge(cupones: seq<Cupon>): (b: Option<nat>)
    ensures b.Some? <==> |cupones| > 0
    ensures b.Some? ==> b.value == |cupones|
  {
    if |cupones| > 0 then Some(|cupones|) else None
  }

  /** A successful redemption shows the badge with one more coupon than
      before. */
  lemma RedeemRaisesBadge(s: Points.LedgerState, premio: Premio, now: nat, fecha: string)
    requires Points.Redeem(s, premio, now, fecha).ok
    ensures CouponBadge(Points.Redeem(s, premio, now, fecha).state.cupones) == Some(|s.cupones| + 1)
  {
  }

  /** A refused redemption leaves the badge as it was. */
  lemma RefusalKeepsBadge(s: Points.LedgerState, premio: Premio, now: nat, fecha: string)
    requires !Points.Redeem(s, premio, now, fecha).ok
    ensures CouponBadge(Points.Redeem(s, premio, now, fecha).state.cupones) == CouponBadge(s.cupones)
  {
  }

  /** With no active user there are no coupons, so no badge is shown. */
  lemma NoUserNoBadge(storage: map<string, Stored>, current: Points.LedgerState)
    ensures CouponBadge(Points.Load(storage, None, current).cupones) == None
  {
  }

  /** What `handleCanjear` shows: the shortfall, or the prize redeemed. */
  datatype CanjeOutcome = Insuficientes(faltan: int) | Canjeado(nombre: string)

  /** `handleCanjear(premio)`: a short balance reports the missing points and
      leaves the ledger alone; otherwise the ledger is asked once. */
  method HandleCanjear(ledger: Points.PointsProvider, premio: Premio, now: nat, fecha: string) returns (o: CanjeOutcome)
    requires ledger.Valid()
    modifies ledger
    ensures ledger.Valid()
    ensures old(ledger.points) < premio.costo ==>
      && o == Insuficientes(premio.costo - old(ledger.points)) && o.faltan > 0
      && ledger.points == old(ledger.points) && ledger.cupones == old(ledger.cupones)
      && ledger.storage == old(ledger.storage) && ledger.history == old(ledger.history)
    ensures old(ledger.points) >= premio.costo ==>
      && o == Canjeado(premio.nombre)
      && ledger.points == old(ledger.points) - premio.costo
      && ledger.cupones == old(ledger.cupones) + [Points.NewCupon(premio, now, fecha)]
      && ledger.history == old(ledger.history) + [Points.Op.RedeemPrize(premio, now, fecha)]
      && ledger.storage == Points.Persist(old(ledger.storage), ledger.user, ledger.State())
    ensures ledger.user == old(ledger.user) && ledger.loaded == old(ledger.loaded)
  {
    if ledger.points < premio.costo {
      return Insuficientes(premio.costo - ledger.points);
    }
    var success := ledger.RedeemPrize(premio, now, fecha);
    assert success;
    o := Canjeado(premio.nombre);
  }
}
