/** The place detail page (src/pages/LugarDetail.tsx): the place is looked up
    by the route id, a review draft is validated before it is accepted, the
    star rating of the draft stays in 1..5, and reporting a situation only
    shows a notice. */
module LugarDetail {
  import opened Types
  import Text

  /** `catalog.find(l => l.id === id)`: the first place with that id. */
  function FindLugar(catalog: seq<Lugar>, id: string): (r: Option<Lugar>)
    ensures r.None? <==> forall i :: 0 <= i < |catalog| ==> catalog[i].id != id
    ensures r.Some? ==> r.value.id == id && exists i :: (0 <= i < |catalog| && catalog[i] == r.value
      && forall j :: 0 <= j < i ==> catalog[j].id != id)
  {
    if catalog == [] then None
    else if catalog[0].id == id then Some(catalog[0])
    else
      var r := FindLugar(catalog[1..], id);
      if r.Some? then
        var i :| 0 <= i < |catalog| - 1 && catalog[1..][i] == r.value && r.value.id == id
          && forall j :: 0 <= j < i ==> catalog[1..][j].id != id;
        assert catalog[i + 1] == r.value;
        assert forall j :: 0 <= j < i + 1 ==> catalog[j].id != id by {
          forall j | 0 <= j < i + 1 ensures catalog[j].id != id {
            if j > 0 { assert catalog[j] == catalog[1..][j - 1]; }
          }
        }
        r
      else
        assert forall i :: 0 <= i < |catalog| ==> catalog[i].id != id by {
          forall i | 0 <= i < |catalog| ensures catalog[i].id != id {
            if i > 0 { assert catalog[i] == catalog[1..][i - 1]; }
          }
        }
        r
  }

  /** Putting places with other ids in front does not change the lookup. */
  lemma FindSkipsOthers(front: seq<Lugar>, rest: seq<Lugar>, id: string)
    requires forall i :: 0 <= i < |front| ==> front[i].id != id
    ensures FindLugar(front + rest, id) == FindLugar(rest, id)
  {
    if front != [] {
      assert (front + rest)[0] == front[0];
      assert (front + rest)[1..] == front[1..] + rest;
      assert FindLugar(front + rest, id) == FindLugar(front[1..] + rest, id);
      FindSkipsOthers(front[1..], rest, id);
    } else {
      assert front + rest == rest;
    }
  }

  /** The star row for a rating: star i + 1 of the first `n` is filled iff
      i + 1 <= rating. */
  function StarsUpTo(n: nat, rating: int): (r: seq<bool>)
    ensures |r| == n
    ensures forall i :: 0 <= i < n ==> (r[i] <==> i + 1 <= rating)
  {
    if n == 0 then [] else StarsUpTo(n - 1, rating) + [n <= rating]
  }

  /** How many stars are filled. */
  function CountFilled(s: seq<bool>): nat
  {
    if s == [] then 0 else CountFilled(s[..|s| - 1]) + (if s[|s| - 1] then 1 else 0)
  }

  /** The number of filled stars among the first `n` is the rating clamped to
      0..n. */
  lemma {:induction false} FilledStarsCount(n: nat, rating: int)
    ensures CountFilled(StarsUpTo(n, rating)) == if rating < 0 then 0 else if rating > n then n else rating
  {
    if n > 0 {
      var s := StarsUpTo(n, rating);
      assert s[..|s| - 1] == StarsUpTo(n - 1, rating);
      FilledStarsCount(n - 1, rating);
    }
  }

  /** The notice shown on reporting a situation. */
  function AlertNotice(tipo: TipoAlerta): (r: string)
    ensures Text.Contains(r, TipoAlertaName(tipo))
    ensures Text.IsPrefix("Se ha reportado: ", r)
  {
    Text.ContainsMiddle("Se ha reportado: ", TipoAlertaName(tipo), ". Expira en 6 horas. +30 UCPuntos ganados!");
    "Se ha reportado: " + TipoAlertaName(tipo) + ". Expira en 6 horas. +30 UCPuntos ganados!"
  }

  /** Each kind of report gets its own notice. */
  lemma AlertNoticeInjective(a: TipoAlerta, b: TipoAlerta)
    requires AlertNotice(a) == AlertNotice(b)
    ensures a == b
  {
    var n := |"Se ha reportado: "|;
    assert AlertNotice(a)[n] == TipoAlertaName(a)[0];
    assert AlertNotice(b)[n] == TipoAlertaName(b)[0];
  }

  class LugarDetailPage {
    /** The place shown, or none for the "not found" view. */
    const lugar: Option<Lugar>
    var newReview: string
    var rating: int

    ghost predicate Valid()
      reads this
    {
      1 <= rating <= 5
    }

    /** Opening the page for a route id. */
    constructor (catalog: seq<Lugar>, id: string)
      ensures Valid()
      ensures lugar == FindLugar(catalog, id)
      ensures newReview == "" && rating == 5
    {
      lugar := FindLugar(catalog, id);
      newReview := "";
      rating := 5;
    }

    /** Typing in the review box. */
    method SetNewReview(text: string)
      requires Valid()
      modifies this
      ensures Valid()
      ensures newReview == text && rating == old(rating)
    {
      newReview := text;
    }

    /** Clicking star `star` of the five. */
    method SetRating(star: int)
      requires Valid()
      requires 1 <= star <= 5
      modifies this
      ensures Valid()
      ensures rating == star && newReview == old(newReview)
    {
      rating := star;
    }

    /** `handleSubmitReview()`: a blank draft is refused and kept; otherwise
        the draft is cleared, and nothing else changes: the place's reviews
        are not extended and no ledger is touched. */
    method HandleSubmitReview() returns (accepted: bool)
      requires Valid()
      modifies this
      ensures Valid()
      ensures accepted <==> !Text.IsBlank(old(newReview))
      ensures accepted ==> newReview == ""
      ensures !accepted ==> newReview == old(newReview)
      ensures rating == old(rating)
    {
      Text.TrimEmptyIffBlank(newReview);
      if Text.Trim(newReview) == "" {
        return false;
      }
      newReview := "";
      accepted := true;
    }

    /** `handleCreateAlert(tipo)`: shows a notice and changes nothing. */
    method HandleCreateAlert(tipo: TipoAlerta) returns (notice: string)
      ensures notice == AlertNotice(tipo)
    {
      notice := AlertNotice(tipo);
    }

    /** The filled flags of the five stars. */
    function Stars(): seq<bool>
      reads this
    {
      StarsUpTo(5, rating)
    }

    /** The number of filled stars is the rating. */
    function FilledCount(): (n: nat)
      reads this
      requires Valid()
      ensures n == rating
    {
      FilledStarsCount(5, rating);
      CountFilled(Stars())
    }
  }
}
