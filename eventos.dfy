/** The event list's subscriptions (src/pages/Eventos.tsx): the ids of the
    events the user subscribed to, added or removed by the bell button. */
module Eventos {
  import Seqs

  class EventosPage {
    var suscritos: seq<string>

    /** An id is never listed twice. */
    ghost predicate Valid()
      reads this
    {
      Seqs.NoDuplicates(suscritos)
    }

    /** No subscription on entering the page. */
    constructor ()
      ensures Valid()
      ensures suscritos == []
    {
      suscritos := [];
    }

    /** `handleSuscribirse(eventoId, titulo)`; the result tells which
        notification is shown (subscribed or cancelled). */
    method HandleSuscribirse(eventoId: string, titulo: string) returns (subscribed: bool)
      requires Valid()
      modifies this
      ensures Valid()
      ensures suscritos == Seqs.Toggle(old(suscritos), eventoId)
      ensures subscribed <==> eventoId !in old(suscritos)
      ensures subscribed ==> suscritos == old(suscritos) + [eventoId]
      ensures !subscribed ==> suscritos == Seqs.RemoveAll(old(suscritos), eventoId)
      ensures eventoId in suscritos <==> subscribed
      ensures forall id :: id != eventoId ==> (id in suscritos <==> id in old(suscritos))
      ensures IsSuscrito(eventoId) <==> subscribed
      ensures forall id :: id != eventoId ==> (IsSuscrito(id) <==> old(IsSuscrito(id)))
    {
      Seqs.ToggleNoDuplicates(suscritos, eventoId);
      if eventoId in suscritos {
        suscritos := Seqs.RemoveAll(suscritos, eventoId);
        subscribed := false;
      } else {
        suscritos := suscritos + [eventoId];
        subscribed := true;
      }
    }

    /** `isSuscrito` for an event. */
    function IsSuscrito(eventoId: string): (b: bool)
      reads this
      ensures b <==> eventoId in suscritos
    {
      eventoId in suscritos
    }

    /** The bell button's label. */
    function ButtonLabel(eventoId: string): (caption: string)
      reads this
      ensures caption == "Suscrito" <==> IsSuscrito(eventoId)
    {
      if IsSuscrito(eventoId) then "Suscrito" else "Suscribirse"
    }
  }

  /** The two-step toggle on a subscribed id that is not the last one does
      not give back the same list. */
  lemma ToggleTwiceMoves()
    ensures Seqs.Toggle(Seqs.Toggle(["e1", "e2"], "e1"), "e1") == ["e2", "e1"]
  {
    Seqs.FilterCons("e1", ["e2"], Seqs.Differs("e1"));
    Seqs.FilterCons("e2", [], Seqs.Differs("e1"));
    assert ["e1", "e2"] == ["e1"] + ["e2"];
  }
}
