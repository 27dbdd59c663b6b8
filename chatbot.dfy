/** The campus assistant (src/pages/Chatbot.tsx): an ordered list of keyword
    rules tried on the lowercased message, the first that fires choosing a
    reply built from the catalog, and a conversation that grows by one user
    message per send and one bot message per reply. */
module Chatbot {
  import opened Types
  import Text
  import Seqs

  /** The reply rules, in the order they are tried; `Ayuda` is the fallback. */
  datatype Rule = Junaeb | Estudio | Vegano | Banos | Saludo | Ayuda

  /** The position at which a rule is tried; the fallback comes last. */
  function Rank(r: Rule): nat
  {
    match r
    case Junaeb => 0
    case Estudio => 1
    case Vegano => 2
    case Banos => 3
    case Saludo => 4
    case Ayuda => 5
  }

  /** The keywords of each rule. */
  function Keywords(r: Rule): seq<string>
  {
    match r
    case Junaeb => ["junaeb", "comer"]
    case Estudio => ["estudiar", "biblioteca"]
    case Vegano => ["vegano", "vegetariano"]
    case Banos => ["baño"]
    case Saludo => ["hola", "hi", "hello"]
    case Ayuda => []
  }

  /** A rule fires when one of its keywords occurs in the message. */
  predicate Fires(r: Rule, lower: string)
  {
    exists k :: k in Keywords(r) && Text.Contains(lower, k)
  }

  /** Each rule fires exactly when one of the keywords its branch tests
      occurs. */
  lemma FiresByKeywords(lower: string)
    ensures Fires(Junaeb, lower) <==> Text.Contains(lower, "junaeb") || Text.Contains(lower, "comer")
    ensures Fires(Estudio, lower) <==> Text.Contains(lower, "estudiar") || Text.Contains(lower, "biblioteca")
    ensures Fires(Vegano, lower) <==> Text.Contains(lower, "vegano") || Text.Contains(lower, "vegetariano")
    ensures Fires(Banos, lower) <==> Text.Contains(lower, "baño")
    ensures Fires(Saludo, lower) <==> Text.Contains(lower, "hola") || Text.Contains(lower, "hi") || Text.Contains(lower, "hello")
    ensures !Fires(Ayuda, lower)
  {
    assert Keywords(Junaeb)[0] == "junaeb" && Keywords(Junaeb)[1] == "comer";
    assert Keywords(Estudio)[0] == "estudiar" && Keywords(Estudio)[1] == "biblioteca";
    assert Keywords(Vegano)[0] == "vegano" && Keywords(Vegano)[1] == "vegetariano";
    assert Keywords(Banos)[0] == "baño";
    assert Keywords(Saludo)[0] == "hola" && Keywords(Saludo)[1] == "hi" && Keywords(Saludo)[2] == "hello";
  }

  /** The rule chosen for a lowercased message: the first by rank that
      fires, or the fallback when none does. */
  function Classify(lower: string): (r: Rule)
    ensures r != Ayuda ==> Fires(r, lower)
    ensures forall q :: Rank(q) < Rank(r) ==> !Fires(q, lower)
  {
    FiresByKeywords(lower);
    if Text.Contains(lower, "junaeb") || Text.Contains(lower, "comer") then Junaeb
    else if Text.Contains(lower, "estudiar") || Text.Contains(lower, "biblioteca") then Estudio
    else if Text.Contains(lower, "vegano") || Text.Contains(lower, "vegetariano") then Vegano
    else if Text.Contains(lower, "baño") then Banos
    else if Text.Contains(lower, "hola") || Text.Contains(lower, "hi") || Text.Contains(lower, "hello") then Saludo
    else Ayuda
  }

  /** The fallback is chosen exactly when no rule fires. */
  lemma FallbackIffNoneFires(lower: string)
    ensures Classify(lower) == Ayuda <==> forall q :: q != Ayuda ==> !Fires(q, lower)
  {
    var r := Classify(lower);
    if r == Ayuda {
      forall q | q != Ayuda ensures !Fires(q, lower) {
        assert Rank(q) < Rank(r);
      }
    }
  }

  /** A message in which "hi" occurs, and none of the keywords of the
      earlier rules, gets the greeting. */
  lemma GreetsOnHi(lower: string)
    requires Text.Contains(lower, "hi")
    requires forall q :: Rank(q) < Rank(Saludo) ==> !Fires(q, lower)
    ensures Classify(lower) == Saludo
  {
    assert Keywords(Saludo)[1] == "hi";
  }

  /** `names.join(sep)`. */
  function Join(names: seq<string>, sep: string): string
  {
    if |names| == 0 then ""
    else if |names| == 1 then names[0]
    else names[0] + sep + Join(names[1..], sep)
  }

  /** Every joined name occurs in the joined text. */
  lemma {:induction false} JoinContains(names: seq<string>, sep: string, i: nat)
    requires i < |names|
    ensures Text.Contains(Join(names, sep), names[i])
  {
    if |names| == 1 {
      Text.ContainsLeft(names[0], "");
      assert names[0] + "" == names[0];
    } else {
      var rest := Join(names[1..], sep);
      assert Join(names, sep) == names[0] + (sep + rest);
      if i == 0 {
        Text.ContainsLeft(names[0], sep + rest);
      } else {
        JoinContains(names[1..], sep, i - 1);
        Text.ContainsRight(sep, rest, names[i]);
        Text.ContainsRight(names[0], sep + rest, names[i]);
      }
    }
  }

  /** `places.map(l => l.nombre)`. */
  function Names(places: seq<Lugar>): (r: seq<string>)
    ensures |r| == |places|
    ensures forall i :: 0 <= i < |places| ==> r[i] == places[i].nombre
  {
    seq(|places|, i requires 0 <= i < |places| => places[i].nombre)
  }

  function HasTag(tag: string): Lugar -> bool
  {
    (l: Lugar) => tag in l.etiquetas
  }

  function HasTipo(a: TipoLugar, b: TipoLugar): Lugar -> bool
  {
    (l: Lugar) => l.tipo == a || l.tipo == b
  }

  /** The places a rule's reply lists, in catalog order. */
  function Listed(catalog: seq<Lugar>, r: Rule): seq<Lugar>
  {
    match r
    case Junaeb => Seqs.Filter(catalog, HasTag("acepta JUNAEB"))
    case Estudio => Seqs.Filter(catalog, HasTipo(Biblioteca, Sala))
    case Vegano => Seqs.Filter(catalog, HasTag("opción vegana"))
    case Banos => Seqs.Filter(catalog, HasTipo(Bano, Bano))
    case _ => []
  }

  /** The text in front of and behind a rule's list of names. */
  function Opening(r: Rule): string
  {
    match r
    case Junaeb => "Te recomiendo estos lugares que aceptan JUNAEB: "
    case Estudio => "Para estudiar te recomiendo: "
    case Vegano => "Lugares con opciones veganas: "
    case Banos => "Los baños más cercanos son: "
    case Saludo => "¡Hola! ¿En qué puedo ayudarte hoy? Puedo ayudarte a encontrar lugares para comer, estudiar, baños, o información sobre eventos."
    case Ayuda => "Puedo ayudarte con: lugares para comer con JUNAEB, espacios para estudiar, opciones veganas, baños accesibles, y más. ¿Qué necesitas?"
  }

  function Closing(r: Rule): string
  {
    match r
    case Junaeb => ". ¿Quieres saber más sobre alguno?"
    case Estudio => ". Todos tienen enchufes y wifi."
    case Vegano => "."
    case Banos => "."
    case _ => ""
  }

  /** The reply of a rule: fixed text for the greeting and the fallback, and
      the comma-joined names of the listed places for the others. */
  function Reply(catalog: seq<Lugar>, r: Rule): string
  {
    if r == Saludo || r == Ayuda then Opening(r)
    else Opening(r) + Join(Names(Listed(catalog, r)), ", ") + Closing(r)
  }

  /** `getBotResponse(userMessage)`. */
  function GetBotResponse(catalog: seq<Lugar>, message: string): string
  {
    Reply(catalog, Classify(Text.Lower(message)))
  }

  /** A place is listed by a rule exactly when it is in the catalog and meets
      that rule's condition; the list keeps catalog order and lists each such
      place as often as the catalog does. */
  lemma ListedExactly(catalog: seq<Lugar>, r: Rule)
    ensures forall l :: l in Listed(catalog, r) <==> l in catalog && match r
      case Junaeb => "acepta JUNAEB" in l.etiquetas
      case Estudio => l.tipo == Biblioteca || l.tipo == Sala
      case Vegano => "opción vegana" in l.etiquetas
      case Banos => l.tipo == Bano
      case _ => false
    ensures Seqs.IsSubsequence(Listed(catalog, r), catalog)
    ensures forall l :: l in Listed(catalog, r) ==> multiset(Listed(catalog, r))[l] == multiset(catalog)[l]
  {
    var p: Lugar -> bool := match r
      case Junaeb => HasTag("acepta JUNAEB")
      case Estudio => HasTipo(Biblioteca, Sala)
      case Vegano => HasTag("opción vegana")
      case _ => HasTipo(Bano, Bano);
    if r != Saludo && r != Ayuda {
      assert Listed(catalog, r) == Seqs.Filter(catalog, p);
      Seqs.FilterIsSubsequence(catalog, p);
      forall l | l in Listed(catalog, r) ensures multiset(Listed(catalog, r))[l] == multiset(catalog)[l] {
        Seqs.FilterCount(catalog, p, l);
      }
    }
  }

  /** The reply names every place the chosen rule lists. */
  lemma ReplyNamesListed(catalog: seq<Lugar>, message: string, l: Lugar)
    requires l in Listed(catalog, Classify(Text.Lower(message)))
    ensures Text.Contains(GetBotResponse(catalog, message), l.nombre)
  {
    var r := Classify(Text.Lower(message));
    var listed := Listed(catalog, r);
    var i :| 0 <= i < |listed| && listed[i] == l;
    JoinContains(Names(listed), ", ", i);
    Text.ContainsWithin(Opening(r), Join(Names(listed), ", "), Closing(r), l.nombre);
  }

  /** Lowercasing the message first does not change the reply. */
  lemma CaseInsensitive(catalog: seq<Lugar>, message: string)
    ensures GetBotResponse(catalog, Text.Lower(message)) == GetBotResponse(catalog, message)
  {
    Text.LowerIdempotent(message);
  }

  /** "hi" inside another word fires the greeting: "Chile" gets it. */
  lemma GreetingInsideWord()
    ensures Classify(Text.Lower("Chile")) == Saludo
  {
    assert Text.Lower("Chile") == "chile";
    ClassifyChile();
  }

  lemma ClassifyChile()
    ensures Classify("chile") == Saludo
  {
    var lower := "chile";
    Text.ContainsAt(lower, "hi", 1);
    Text.ContainsOnlyWith(lower, "junaeb", 0);
    Text.ContainsOnlyWith(lower, "comer", 1);
    Text.ContainsOnlyWith(lower, "estudiar", 1);
    Text.ContainsOnlyWith(lower, "biblioteca", 0);
    Text.ContainsOnlyWith(lower, "vegano", 0);
    Text.ContainsOnlyWith(lower, "vegetariano", 0);
    Text.ContainsOnlyWith(lower, "baño", 0);
  }

  datatype Sender = User | Bot

  /** A conversation entry; the timestamp is the caller's clock reading. */
  datatype Message = Message(id: string, text: string, sender: Sender, timestamp: int)

  const GreetingText :=
    "¡Hola! Soy tu asistente UC. ¿En qué puedo ayudarte? Puedo recomendarte lugares para comer, estudiar, o ayudarte con información del campus."

  /** How many messages a sender wrote. */
  function CountFrom(messages: seq<Message>, s: Sender): nat
  {
    if messages == [] then 0
    else CountFrom(messages[..|messages| - 1], s) + (if messages[|messages| - 1].sender == s then 1 else 0)
  }

  lemma CountAppend(messages: seq<Message>, m: Message, s: Sender)
    ensures CountFrom(messages + [m], s) == CountFrom(messages, s) + (if m.sender == s then 1 else 0)
  {
    assert (messages + [m])[..|messages|] == messages;
  }

  /** The chat page. Each send schedules one reply; `pending` holds, oldest
      first, the texts whose reply is still to come. */
  class ChatbotPage {
    const catalog: seq<Lugar>
    var messages: seq<Message>
    var inputValue: string
    var pending: seq<string>

    /** The conversation opens with the greeting, and every user message has
        had its reply appended or still has it pending. */
    ghost predicate Valid()
      reads this
    {
      && |messages| >= 1
      && messages[0].id == "1" && messages[0].text == GreetingText && messages[0].sender == Bot
      && CountFrom(messages, User) + 1 == CountFrom(messages, Bot) + |pending|
    }

    constructor (catalog0: seq<Lugar>, now: int)
      ensures Valid()
      ensures catalog == catalog0
      ensures messages == [Message("1", GreetingText, Bot, now)] && inputValue == "" && pending == []
    {
      catalog := catalog0;
      messages := [Message("1", GreetingText, Bot, now)];
      inputValue := "";
      pending := [];
      new;
      assert messages == [] + [messages[0]];
    }

    /** Typing in the input box. */
    method SetInputValue(v: string)
      requires Valid()
      modifies this
      ensures Valid()
      ensures inputValue == v && messages == old(messages) && pending == old(pending)
    {
      inputValue := v;
    }

    /** `setMessages(prev => [...prev, m])`. */
    method Append(m: Message)
      requires |messages| >= 1
      modifies this
      ensures messages == old(messages) + [m] && messages[0] == old(messages[0])
      ensures CountFrom(messages, User) == CountFrom(old(messages), User) + (if m.sender == User then 1 else 0)
      ensures CountFrom(messages, Bot) == CountFrom(old(messages), Bot) + (if m.sender == Bot then 1 else 0)
      ensures inputValue == old(inputValue) && pending == old(pending)
    {
      CountAppend(messages, m, User);
      CountAppend(messages, m, Bot);
      messages := messages + [m];
    }

    /** The oldest scheduled reply fires. */
    method Pop() returns (text: string)
      requires |pending| > 0
      modifies this
      ensures text == old(pending[0]) && pending == old(pending[1..])
      ensures messages == old(messages) && inputValue == old(inputValue)
    {
      text := pending[0];
      pending := pending[1..];
    }

    /** `handleSend()` at clock reading `now`: a blank input is ignored;
        otherwise the user message is appended, the reply to its text is
        scheduled and the input is cleared. */
    method HandleSend(now: nat, at: int) returns (sent: bool)
      requires Valid()
      modifies this
      ensures Valid()
      ensures sent <==> !Text.IsBlank(old(inputValue))
      ensures !sent ==> messages == old(messages) && inputValue == old(inputValue) && pending == old(pending)
      ensures sent ==> messages == old(messages) + [Message(Text.NatToString(now), old(inputValue), User, at)]
      ensures sent ==> inputValue == "" && pending == old(pending) + [old(inputValue)]
    {
      Text.TrimEmptyIffBlank(inputValue);
      if Text.Trim(inputValue) == "" {
        return false;
      }
      Append(Message(Text.NatToString(now), inputValue, User, at));
      pending := pending + [inputValue];
      inputValue := "";
      sent := true;
    }

    /** The scheduled reply firing at clock reading `now`: the oldest pending
        text gets its answer appended as a bot message. */
    method DeliverReply(now: nat, at: int)
      requires Valid()
      requires |pending| > 0
      modifies this
      ensures Valid()
      ensures messages == old(messages) + [Message(Text.NatToString(now + 1), GetBotResponse(catalog, old(pending[0])), Bot, at)]
      ensures pending == old(pending[1..]) && inputValue == old(inputValue)
    {
      var text := Pop();
      Append(Message(Text.NatToString(now + 1), GetBotResponse(catalog, text), Bot, at));
    }

    /** With no reply pending, the conversation holds one bot message more
        than user messages: the greeting and one answer per message sent. */
    function Settled(): (b: bool)
      reads this
      requires Valid()
      ensures b ==> CountFrom(messages, Bot) == CountFrom(messages, User) + 1
    {
      |pending| == 0
    }
  }
}
