/** The event model of `libs/event.h` and its text codec of `libs/event.cpp`.

    An event object has the fields of the `Event` base class (the user and
    the type code) and the fields of its concrete class.  Events are owned
    uniquely (`std::unique_ptr`) or copied by value, so they are modelled as
    values; an operation that fills an event in place returns the filled
    event instead.  The type code is kept as the integer the stream stores
    into `_type`, which need not be one of the enumerators. */
module Events {
  import opened Text

  type User = int

  /** The enumerators of `Event::Type` and their underlying values. */
  const TypeUndefined: int := -1
  const TypeRegistered: int := 0
  const TypeRenamed: int := 1
  const TypeDealWon: int := 2
  const TypeConnected: int := 3
  const TypeDisconnected: int := 4

  /** The concrete class of an event object, with the fields only that class
      has. */
  datatype Body =
    | Base                              // BaseEvent: the header alone
    | Registered(name: string)          // UserRegisteredEvent
    | Renamed(name: string)             // UserRenamedEvent
    | DealWon(time: int, amount: int)   // UserDealWonEvent, time in nanoseconds
    | Connected                         // UserConnectedEvent
    | Disconnected                      // UserDisconnectedEvent

  datatype Event = Event(user: User, typeCode: int, body: Body)

  /** A default-constructed `BaseEvent`: user -1, type `undefined`. */
  const DefaultEvent: Event := Event(-1, TypeUndefined, Base)

  /** The type code the concrete class's own constructors give an event. */
  function KindCode(b: Body): int {
    match b
    case Base => TypeUndefined
    case Registered(_) => TypeRegistered
    case Renamed(_) => TypeRenamed
    case DealWon(_, _) => TypeDealWon
    case Connected => TypeConnected
    case Disconnected => TypeDisconnected
  }

  /** An event of one of the five concrete kinds whose type code agrees with
      its class, as the concrete constructors and `createEvent` make them. */
  predicate Concrete(e: Event) {
    e.body != Base && e.typeCode == KindCode(e.body)
  }

  /** An event the text encoding carries faithfully: a name, where the kind
      has one, is a single whitespace-free word. */
  predicate Encodable(e: Event) {
    Concrete(e) && (e.body.Registered? || e.body.Renamed? ==> IsWord(e.body.name))
  }

  /** `Event::type_name`.  The source has no return for a value outside the
      enumerators, so only those are accepted. */
  function TypeName(t: int): (n: string)
    requires TypeUndefined <= t <= TypeDisconnected
    ensures n != []
  {
    if t == TypeUndefined then "undefined"
    else if t == TypeRegistered then "user_registered"
    else if t == TypeRenamed then "user_renamed"
    else if t == TypeDealWon then "user_deal_won"
    else if t == TypeConnected then "user_connected"
    else "user_disconnected"
  }

  /** Every enumerator has its own name. */
  lemma TypeNameInjective(t1: int, t2: int)
    requires TypeUndefined <= t1 <= TypeDisconnected
    requires TypeUndefined <= t2 <= TypeDisconnected
    requires t1 != t2
    ensures TypeName(t1) != TypeName(t2)
  {
  }

  /** `Event::setType`. */
  function SetType(e: Event, t: int): (r: Event)
    ensures r.typeCode == t && r.user == e.user && r.body == e.body
  {
    e.(typeCode := t)
  }

  /** `Event::setUser`. */
  function SetUser(e: Event, u: User): (r: Event)
    ensures r.user == u && r.typeCode == e.typeCode && r.body == e.body
  {
    e.(user := u)
  }

  /** `setName` of the registered and renamed events. */
  function SetName(e: Event, name: string): (r: Event)
    requires e.body.Registered? || e.body.Renamed?
    ensures r.user == e.user && r.typeCode == e.typeCode && KindCode(r.body) == KindCode(e.body)
    ensures r.body.name == name
  {
    e.(body := e.body.(name := name))
  }

  /** `UserDealWonEvent::setTime`. */
  function SetTime(e: Event, time: int): (r: Event)
    requires e.body.DealWon?
    ensures r.user == e.user && r.typeCode == e.typeCode && r.body == DealWon(time, e.body.amount)
  {
    e.(body := e.body.(time := time))
  }

  /** `UserDealWonEvent::setAmount`. */
  function SetAmount(e: Event, amount: int): (r: Event)
    requires e.body.DealWon?
    ensures r.user == e.user && r.typeCode == e.typeCode && r.body == DealWon(e.body.time, amount)
  {
    e.(body := e.body.(amount := amount))
  }

  /** `Event::createEvent`: the object of the concrete class the type code
      names, copying the user and the type; nothing for `undefined` or a code
      outside the enumerators.  The copied event's own fields start out
      empty (the source leaves the deal-won time uninitialised; 0 here). */
  function CreateEvent(e: Event): (r: Option<Event>)
    ensures r.Some? <==> TypeRegistered <= e.typeCode <= TypeDisconnected
    ensures r.Some? ==> Concrete(r.value) && r.value.user == e.user && r.value.typeCode == e.typeCode
  {
    if e.typeCode == TypeRegistered then Some(Event(e.user, e.typeCode, Registered("")))
    else if e.typeCode == TypeRenamed then Some(Event(e.user, e.typeCode, Renamed("")))
    else if e.typeCode == TypeDealWon then Some(Event(e.user, e.typeCode, DealWon(0, 0)))
    else if e.typeCode == TypeConnected then Some(Event(e.user, e.typeCode, Connected))
    else if e.typeCode == TypeDisconnected then Some(Event(e.user, e.typeCode, Disconnected))
    else None
  }

  /** `to_stream` of each class: the fields after the header. */
  function FieldsText(b: Body): (s: string)
    ensures s == [] || s[0] == ' '
  {
    match b
    case Registered(name) => " " + name
    case Renamed(name) => " " + name
    case DealWon(time, amount) => " " + IntText(time) + " " + IntText(amount)
    case _ => ""
  }

  /** `operator<<`: the numeric type code, a space, the user, then the
      class's fields. */
  function Encode(e: Event): string {
    IntText(e.typeCode) + " " + IntText(e.user) + FieldsText(e.body)
  }

  /** `finish_reading` of each class: a name is read as one word after
      skipping exactly one character; a deal-won reads the time and then the
      amount, and keeps the time it read when the amount does not read (the
      amount then stays at its initial 0); the others read nothing. */
  function FinishReading(e: Event, s: string): (r: Option<(Event, string)>)
    ensures r.Some? ==> r.value.0.user == e.user && r.value.0.typeCode == e.typeCode
    ensures r.Some? ==> KindCode(r.value.0.body) == KindCode(e.body)
  {
    match e.body
    case Registered(_) =>
      (match GetChar(s)
       case None => None
       case Some(s1) =>
         match ReadWord(s1)
         case None => None
         case Some((w, s2)) => Some((e.(body := Registered(w)), s2)))
    case Renamed(_) =>
      (match GetChar(s)
       case None => None
       case Some(s1) =>
         match ReadWord(s1)
         case None => None
         case Some((w, s2)) => Some((e.(body := Renamed(w)), s2)))
    case DealWon(_, _) =>
      (match ReadInt(s)
       case None => None
       case Some((time, s1)) =>
         match ReadInt(s1)
         case None => Some((e.(body := DealWon(time, 0)), s1))
         case Some((amount, s2)) => Some((e.(body := DealWon(time, amount)), s2)))
    case _ => Some((e, s))
  }

  /** `operator>>`: while the type is still `undefined`, read the type code
      and the user into the header; otherwise finish reading the class's
      fields.  A failed extraction gives `None`. */
  function Read(e: Event, s: string): (r: Option<(Event, string)>)
    ensures r.Some? && e.typeCode == TypeUndefined ==> r.value.0.body == e.body
    ensures r.Some? && e.typeCode != TypeUndefined ==>
      r.value.0.user == e.user && r.value.0.typeCode == e.typeCode && KindCode(r.value.0.body) == KindCode(e.body)
  {
    if e.typeCode == TypeUndefined then
      match ReadInt(s)
      case None => None
      case Some((t, s1)) =>
        match ReadInt(s1)
        case None => None
        case Some((u, s2)) => Some((e.(typeCode := t, user := u), s2))
    else
      FinishReading(e, s)
  }

  /** The receiver's two-phase decode of one datagram: read the header into
      a default `BaseEvent`, let `createEvent` pick the class, then finish
      reading into that object.  `None` is a datagram that is dropped: the
      header could not be read or names no class.  A failed second phase
      does not stop the event from being forwarded; it keeps the fields
      `createEvent` gave it. */
  function Decode(s: string): Option<Event> {
    match Read(DefaultEvent, s)
    case None => None
    case Some((header, rest)) =>
      match CreateEvent(header)
      case None => None
      case Some(created) =>
        match Read(created, rest)
        case None => Some(created)
        case Some((e, _)) => Some(e)
  }

  /** Decoding never forwards a header-only or `undefined` event: what it
      returns is one of the five concrete kinds with a matching type code. */
  lemma DecodeIsConcrete(s: string)
    requires Decode(s).Some?
    ensures Concrete(Decode(s).value)
  {
    var (header, rest) := Read(DefaultEvent, s).value;
    var created := CreateEvent(header).value;
  }

  /** Every datagram whose header reads as a known type code is forwarded,
      with that type code and user, whatever follows the header. */
  lemma DecodeForwardsKnownType(s: string, t: int, afterType: string, u: User, rest: string)
    requires ReadInt(s) == Some((t, afterType)) && ReadInt(afterType) == Some((u, rest))
    requires TypeRegistered <= t <= TypeDisconnected
    ensures Decode(s).Some? && Decode(s).value.typeCode == t && Decode(s).value.user == u
  {
    ReadHeader(s, t, afterType, u, rest);
    var created := CreateEvent(Event(u, t, Base)).value;
    assert created.user == u && created.typeCode == t && created.typeCode != TypeUndefined;
    DecodeOf(s, Event(u, t, Base), rest, created);
  }

  /** The second phase of a decode whose header and class are known. */
  lemma DecodeOf(s: string, header: Event, rest: string, created: Event)
    requires Read(DefaultEvent, s) == Some((header, rest))
    requires CreateEvent(header) == Some(created)
    ensures Decode(s) == if Read(created, rest).Some? then Some(Read(created, rest).value.0) else Some(created)
  {
  }

  /** A datagram whose type code is `undefined` or outside the enumerators
      is dropped. */
  lemma DecodeRejectsUnknownType(s: string, t: int, rest: string)
    requires ReadInt(s) == Some((t, rest))
    requires !(TypeRegistered <= t <= TypeDisconnected)
    ensures Decode(s) == None
  {
  }

  lemma EncodeThen(e: Event)
    ensures Encode(e) == IntText(e.typeCode) + (" " + (IntText(e.user) + FieldsText(e.body)))
  {
  }

  /** Reading into a fresh event takes the type code and then the user. */
  lemma ReadHeader(s: string, t: int, afterType: string, u: User, rest: string)
    requires ReadInt(s) == Some((t, afterType)) && ReadInt(afterType) == Some((u, rest))
    ensures Read(DefaultEvent, s) == Some((Event(u, t, Base), rest))
  {
  }

  /** The header of an encoded event reads back as the type code and the
      user, leaving the class's fields. */
  lemma ReadHeaderOfEncode(e: Event)
    ensures Read(DefaultEvent, Encode(e)) == Some((Event(e.user, e.typeCode, Base), FieldsText(e.body)))
  {
    var fields := FieldsText(e.body);
    var afterType := " " + (IntText(e.user) + fields);
    EncodeThen(e);
    ReadIntText(e.typeCode, afterType);
    ReadIntSpaced(e.user, fields);
    ReadHeader(Encode(e), e.typeCode, afterType, e.user, fields);
  }

  /** The fields of an encoded deal-won event read back as its time and
      amount. */
  lemma DealWonFieldsThen(time: int, amount: int)
    ensures FieldsText(DealWon(time, amount)) == " " + (IntText(time) + (" " + (IntText(amount) + [])))
  {
  }

  lemma ReadDealWonFields(time: int, amount: int)
    ensures var fields := FieldsText(DealWon(time, amount));
      ReadInt(fields) == Some((time, " " + IntText(amount))) &&
      ReadInt(" " + IntText(amount)) == Some((amount, []))
  {
    var afterAmount: string := [];
    var afterTime := " " + (IntText(amount) + afterAmount);
    assert afterTime == " " + IntText(amount);
    DealWonFieldsThen(time, amount);
    ReadIntSpaced(time, afterTime);
    ReadIntSpaced(amount, afterAmount);
  }

  /** The field of an encoded registered or renamed event: one character
      skipped, then the name as one word. */
  lemma ReadNameField(name: string)
    requires IsWord(name)
    ensures GetChar(" " + name) == Some(name) && ReadWord(name) == Some((name, []))
  {
    ReadWordText(name, []);
    assert name + [] == name;
  }

  lemma FinishReadingName(c: Event, s: string, s1: string, w: string, s2: string)
    requires c.body.Registered? || c.body.Renamed?
    requires GetChar(s) == Some(s1) && ReadWord(s1) == Some((w, s2))
    ensures FinishReading(c, s) == Some((c.(body := c.body.(name := w)), s2))
  {
  }

  lemma FinishReadingDealWon(c: Event, s: string, time: int, s1: string, amount: int, s2: string)
    requires c.body.DealWon?
    requires ReadInt(s) == Some((time, s1)) && ReadInt(s1) == Some((amount, s2))
    ensures FinishReading(c, s) == Some((c.(body := DealWon(time, amount)), s2))
  {
  }

  /** A deal-won datagram that ends after its time, such as `2 5 100`, is
      forwarded with that time: the time is stored although the amount does
      not read, and the amount keeps its initial 0. */
  lemma DecodeKeepsTimeWithoutAmount(s: string, u: User, time: int)
    requires Read(DefaultEvent, s) == Some((Event(u, TypeDealWon, Base), " " + IntText(time)))
    ensures Decode(s) == Some(Event(u, TypeDealWon, DealWon(time, 0)))
  {
    var header := Event(u, TypeDealWon, Base);
    var created := Event(u, TypeDealWon, DealWon(0, 0));
    var e := Event(u, TypeDealWon, DealWon(time, 0));
    assert CreateEvent(header) == Some(created);
    ReadTimeOnly(created, time);
    DecodeThen(s, header, " " + IntText(time), created, e, []);
  }

  /** The fields of a deal-won that stop after the time. */
  lemma ReadTimeOnly(c: Event, time: int)
    requires c.body.DealWon? && c.typeCode != TypeUndefined
    ensures Read(c, " " + IntText(time)) == Some((c.(body := DealWon(time, 0)), []))
  {
    var none: string := [];
    ReadIntSpaced(time, none);
    assert " " + (IntText(time) + none) == " " + IntText(time);
    assert ReadInt(none).None? by { assert SkipSpace(none) == none; }
    FinishReadingDealWonPartial(c, " " + IntText(time), time, none);
  }

  /** Both phases of a decode succeed. */
  lemma DecodeThen(s: string, header: Event, rest: string, created: Event, e: Event, rest2: string)
    requires Read(DefaultEvent, s) == Some((header, rest))
    requires CreateEvent(header) == Some(created)
    requires Read(created, rest) == Some((e, rest2))
    ensures Decode(s) == Some(e)
  {
  }

  lemma FinishReadingDealWonPartial(c: Event, s: string, time: int, s1: string)
    requires c.body.DealWon? && c.typeCode != TypeUndefined
    requires ReadInt(s) == Some((time, s1)) && ReadInt(s1).None?
    ensures Read(c, s) == Some((c.(body := DealWon(time, 0)), s1))
  {
  }

  /** Finishing the read of the object `createEvent` made for an encoded
      event's header restores the event's own fields. */
  lemma FinishReadingOfEncode(e: Event)
    requires Encodable(e)
    ensures var created := CreateEvent(Event(e.user, e.typeCode, Base));
      created.Some? && Read(created.value, FieldsText(e.body)) == Some((e, []))
  {
    var created := CreateEvent(Event(e.user, e.typeCode, Base)).value;
    assert created.typeCode != TypeUndefined;
    match e.body {
      case Registered(name) =>
        ReadNameField(name);
        FinishReadingName(created, " " + name, name, name, []);
      case Renamed(name) =>
        ReadNameField(name);
        FinishReadingName(created, " " + name, name, name, []);
      case DealWon(time, amount) =>
        ReadDealWonFields(time, amount);
        FinishReadingDealWon(created, FieldsText(e.body), time, " " + IntText(amount), amount, []);
      case Connected =>
        assert created == e;
      case Disconnected =>
        assert created == e;
    }
  }

  /** Round trip: decoding the text of an encodable event gives that event
      back, kind, user and fields. */
  lemma DecodeEncode(e: Event)
    requires Encodable(e)
    ensures Decode(Encode(e)) == Some(e)
  {
    ReadHeaderOfEncode(e);
    FinishReadingOfEncode(e);
  }
}
