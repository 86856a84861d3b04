/** The load generator's lifecycle rule of `libs/event_generator.cpp`: each
    user goes from unregistered to registered to connected, and only the
    events its current state permits are generated.

    The random draws (`get_random_user`, `get_random_event`,
    `get_random_name`, `get_random_time`, `get_random_amount`) are inputs
    of `GenerateEvent`, constrained to the ranges of their distributions. */
module EventGeneration {
  import opened Text
  import opened Events

  /** `is_allowed_event` over the generator's bookkeeping: an unregistered
      user may only register, a registered user that is not connected may
      only connect, and a connected user may rename, win a deal or
      disconnect. */
  predicate Allowed(registered: set<User>, connected: set<User>, u: User, t: int) {
    if u !in registered then t == TypeRegistered
    else if u !in connected then t == TypeConnected
    else t == TypeRenamed || t == TypeDealWon || t == TypeDisconnected
  }

  /** The table of the rule, state by state. */
  lemma AllowedTable(registered: set<User>, connected: set<User>, u: User, t: int)
    requires connected <= registered
    ensures u !in registered ==> (Allowed(registered, connected, u, t) <==> t == TypeRegistered)
    ensures u in registered && u !in connected ==> (Allowed(registered, connected, u, t) <==> t == TypeConnected)
    ensures u in connected ==>
      (Allowed(registered, connected, u, t) <==> t in {TypeRenamed, TypeDealWon, TypeDisconnected})
  {
  }

  /** Every state permits some type code between `user_registered` and
      `user_disconnected`, and none permits `undefined` or a code outside
      the enumerators: with the default range of the type distribution the
      re-drawing loop can always stop, and the `undefined` case of the
      `switch` is never reached. */
  lemma EveryStateAllowsSome(registered: set<User>, connected: set<User>, u: User)
    ensures exists t :: TypeRegistered <= t <= TypeDisconnected && Allowed(registered, connected, u, t)
    ensures forall t :: Allowed(registered, connected, u, t) ==> TypeRegistered <= t <= TypeDisconnected
  {
    if u !in registered {
      assert Allowed(registered, connected, u, TypeRegistered);
    } else if u !in connected {
      assert Allowed(registered, connected, u, TypeConnected);
    } else {
      assert Allowed(registered, connected, u, TypeDealWon);
    }
  }

  /** The index of the first draw the state permits. */
  function FirstAllowed(registered: set<User>, connected: set<User>, u: User, draws: seq<int>): (i: nat)
    requires exists k :: 0 <= k < |draws| && Allowed(registered, connected, u, draws[k])
    ensures i < |draws| && Allowed(registered, connected, u, draws[i])
    ensures forall k :: 0 <= k < i ==> !Allowed(registered, connected, u, draws[k])
  {
    if Allowed(registered, connected, u, draws[0]) then 0
    else
      var k :| 0 <= k < |draws| && Allowed(registered, connected, u, draws[k]);
      assert k > 0 && Allowed(registered, connected, u, draws[1..][k - 1]);
      1 + FirstAllowed(registered, connected, u, draws[1..])
  }

  class Generator {
    var registered: map<User, string>
    var connected: set<User>

    const minUser: int
    const maxUser: int
    const lowestEvent: int
    const highestEvent: int
    const minLetters: nat
    const maxLetters: nat
    const minLetter: char
    const maxLetter: char
    const minTime: int
    const maxTime: int
    const minAmount: int
    const maxAmount: int

    /** Only registered users are ever connected. */
    ghost predicate Valid()
      reads this
    {
      connected <= registered.Keys
    }

    /** The bounds of the distributions; the defaults are those of
        `libs/event_generator.h`.  A uniform distribution needs its lower
        bound not above its upper one. */
    constructor (minUser: int := 1, maxUser: int := 1000,
                 lowestEvent: int := TypeRegistered, highestEvent: int := TypeDisconnected,
                 minLetters: nat := 6, maxLetters: nat := 12,
                 minLetter: char := 'a', maxLetter: char := 'z',
                 minTime: int := 0, maxTime: int := 1_000_000_000,
                 minAmount: int := -1000, maxAmount: int := 1000)
      requires minUser <= maxUser && lowestEvent <= highestEvent && minLetters <= maxLetters
      requires minLetter <= maxLetter && minTime <= maxTime && minAmount <= maxAmount
      ensures registered == map[] && connected == {}
      ensures this.minUser == minUser && this.maxUser == maxUser
      ensures this.lowestEvent == lowestEvent && this.highestEvent == highestEvent
      ensures this.minLetters == minLetters && this.maxLetters == maxLetters
      ensures this.minLetter == minLetter && this.maxLetter == maxLetter
      ensures this.minTime == minTime && this.maxTime == maxTime
      ensures this.minAmount == minAmount && this.maxAmount == maxAmount
      ensures Valid()
    {
      registered := map[];
      connected := {};
      this.minUser := minUser;
      this.maxUser := maxUser;
      this.lowestEvent := lowestEvent;
      this.highestEvent := highestEvent;
      this.minLetters := minLetters;
      this.maxLetters := maxLetters;
      this.minLetter := minLetter;
      this.maxLetter := maxLetter;
      this.minTime := minTime;
      this.maxTime := maxTime;
      this.minAmount := minAmount;
      this.maxAmount := maxAmount;
    }

    /** `is_allowed_event`. */
    predicate IsAllowedEvent(e: Event)
      reads this
    {
      Allowed(registered.Keys, connected, e.user, e.typeCode)
    }

    /** What `get_random_name` can return: a length and letters within the
        distributions' ranges. */
    predicate IsDrawnName(name: string) {
      minLetters <= |name| <= maxLetters && forall i :: 0 <= i < |name| ==> minLetter <= name[i] <= maxLetter
    }

    /** Names drawn from a range above the space character, at least one
        letter long, are single words, so they survive the text encoding. */
    lemma DrawnNameIsWord(name: string)
      requires IsDrawnName(name) && minLetters >= 1 && minLetter > ' '
      ensures IsWord(name)
    {
      forall i | 0 <= i < |name| ensures !IsSpace(name[i]) {
        assert name[i] >= minLetter;
      }
    }

    /** `generateEvent`: draw a user and a type, re-draw the type until the
        user's state permits it, build the event of that type and update
        the bookkeeping.  `draws` are the successive type draws; one of them
        must be permitted, or the source loops for ever.  The name, the time
        offset and the amount are the draws the chosen type consumes. */
    method GenerateEvent(time: int, user: User, draws: seq<int>, name: string, offset: int, amount: int)
      returns (e: Event)
      requires Valid()
      requires minUser <= user <= maxUser
      requires forall k :: 0 <= k < |draws| ==> lowestEvent <= draws[k] <= highestEvent
      requires exists k :: 0 <= k < |draws| && Allowed(registered.Keys, connected, user, draws[k])
      requires IsDrawnName(name) && minTime <= offset <= maxTime && minAmount <= amount <= maxAmount
      modifies this
      ensures Valid()
      ensures e.user == user && Concrete(e)
      ensures e.typeCode == draws[FirstAllowed(old(registered.Keys), old(connected), user, draws)]
      ensures old(IsAllowedEvent(e))
      ensures e.body.Registered? || e.body.Renamed? ==> e.body.name == name
      ensures e.body.DealWon? ==> e.body == DealWon(time + offset, amount)
      ensures e.body.DealWon? ==> time + minTime <= e.body.time <= time + maxTime && minAmount <= e.body.amount <= maxAmount
      ensures minLetters >= 1 && minLetter > ' ' ==> Encodable(e)
      ensures registered == if e.body.Registered? then old(registered)[user := name] else old(registered)
      ensures connected == if e.body.Connected? then old(connected) + {user}
                           else if e.body.Disconnected? then old(connected) - {user}
                           else old(connected)
    {
      ghost var k :| 0 <= k < |draws| && Allowed(registered.Keys, connected, user, draws[k]);
      var i := 0;
      var base := Event(user, draws[0], Base);
      while !IsAllowedEvent(base)
        invariant i <= k && base == Event(user, draws[i], Base)
        invariant forall j :: 0 <= j < i ==> !Allowed(registered.Keys, connected, user, draws[j])
        decreases k - i
      {
        i := i + 1;
        base := SetType(base, draws[i]);
      }
      ghost var f := FirstAllowed(registered.Keys, connected, user, draws);
      assert i <= f by {
        assert forall j :: 0 <= j < f ==> !Allowed(registered.Keys, connected, user, draws[j]);
      }
      assert f <= i;
      if base.typeCode == TypeRegistered {
        e := Event(user, TypeRegistered, Registered(name));
        registered := if user in registered then registered else registered[user := name];
      } else if base.typeCode == TypeRenamed {
        e := Event(user, TypeRenamed, Renamed(name));
        registered := if user in registered then registered else registered[user := name];
      } else if base.typeCode == TypeDealWon {
        e := Event(user, TypeDealWon, DealWon(time + offset, amount));
      } else if base.typeCode == TypeConnected {
        e := Event(user, TypeConnected, Connected);
        connected := connected + {user};
      } else {
        e := Event(user, TypeDisconnected, Disconnected);
        connected := connected - {user};
      }
      if minLetters >= 1 && minLetter > ' ' {
        DrawnNameIsWord(name);
      }
    }
  }
}
