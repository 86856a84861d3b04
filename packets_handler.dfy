/** The outbound side of the statistics service: the `Packet` a user is sent
    (`statistics_service/packets_handler.h`), its text form, and the
    `PacketsHandler` queue that the events handler fills and the sending
    loop drains (`statistics_service/packets_handler.cpp`).  Locking and
    waiting are left out: each operation is one step taken while the lock
    is held, and `Pop` requires the condition its wait blocks on. */
module Packets {
  import opened Text
  import opened Events
  import opened Statistics

  /** The rank snapshot sent to one user: its 1-based position, the top of
      the ranking and the run of pairs around its own. */
  datatype Packet = Packet(user: User, position: nat, top: seq<Pair>, near: seq<Pair>)

  /** One ranking entry: the user (`.second`) is printed before the amount
      (`.first`). */
  function EntryText(x: Pair): string {
    "\tid: " + IntText(x.1) + " amount: " + IntText(x.0) + "\n"
  }

  function EntriesText(s: seq<Pair>): string {
    if s == [] then "" else EntryText(s[0]) + EntriesText(s[1..])
  }

  /** The first line: the user and its 1-based position. */
  function HeaderText(p: Packet): string {
    "id: " + IntText(p.user) + " position: " + NatText(p.position) + "\n"
  }

  /** The text the sending loop builds for one packet. */
  function Render(p: Packet): string {
    HeaderText(p) + "top: \n" + EntriesText(p.top) + "near: \n" + EntriesText(p.near)
  }

  lemma RenderThen(p: Packet)
    ensures Render(p) == HeaderText(p) + ("top: \n" + (EntriesText(p.top) + ("near: \n" + EntriesText(p.near))))
  {
  }

  function CountChar(s: string, c: char): nat {
    if s == [] then 0 else (if s[0] == c then 1 else 0) + CountChar(s[1..], c)
  }

  lemma {:induction false} CountCharAppend(a: string, b: string, c: char)
    ensures CountChar(a + b, c) == CountChar(a, c) + CountChar(b, c)
    decreases |a|
  {
    if a == [] {
      assert a + b == b;
    } else {
      assert (a + b)[1..] == a[1..] + b;
      CountCharAppend(a[1..], b, c);
    }
  }

  lemma {:induction false} CountCharNone(s: string, c: char)
    requires forall k :: 0 <= k < |s| ==> s[k] != c
    ensures CountChar(s, c) == 0
    decreases |s|
  {
    if s != [] { CountCharNone(s[1..], c); }
  }

  lemma EntryLines(x: Pair)
    ensures CountChar(EntryText(x), '\n') == 1
  {
    var u := IntText(x.1);
    var a := IntText(x.0);
    CountCharNone(u, '\n');
    CountCharNone(a, '\n');
    CountCharNone("\tid: ", '\n');
    CountCharNone(" amount: ", '\n');
    CountCharAppend("\tid: ", u, '\n');
    CountCharAppend("\tid: " + u, " amount: ", '\n');
    CountCharAppend("\tid: " + u + " amount: ", a, '\n');
    CountCharAppend("\tid: " + u + " amount: " + a, "\n", '\n');
  }

  lemma {:induction false} EntriesLines(s: seq<Pair>)
    ensures CountChar(EntriesText(s), '\n') == |s|
    decreases |s|
  {
    if s != [] {
      EntryLines(s[0]);
      EntriesLines(s[1..]);
      CountCharAppend(EntryText(s[0]), EntriesText(s[1..]), '\n');
    }
  }

  lemma HeaderLines(p: Packet)
    ensures CountChar(HeaderText(p), '\n') == 1
  {
    var u := IntText(p.user);
    var pos := NatText(p.position);
    CountCharNone(u, '\n');
    CountCharNone(pos, '\n');
    CountCharNone("id: ", '\n');
    CountCharNone(" position: ", '\n');
    CountCharAppend("id: ", u, '\n');
    CountCharAppend("id: " + u, " position: ", '\n');
    CountCharAppend("id: " + u + " position: ", pos, '\n');
    CountCharAppend("id: " + u + " position: " + pos, "\n", '\n');
  }

  lemma CaptionLines()
    ensures CountChar("top: \n", '\n') == 1 && CountChar("near: \n", '\n') == 1
  {
  }

  lemma CountCharAppend5(a: string, b: string, c: string, d: string, e: string, ch: char)
    ensures CountChar(a + (b + (c + (d + e))), ch)
      == CountChar(a, ch) + CountChar(b, ch) + CountChar(c, ch) + CountChar(d, ch) + CountChar(e, ch)
  {
    CountCharAppend(d, e, ch);
    CountCharAppend(c, d + e, ch);
    CountCharAppend(b, c + (d + e), ch);
    CountCharAppend(a, b + (c + (d + e)), ch);
  }

  /** A rendered packet has one line for the header, one for each of the
      two captions and one per entry of `top` and of `near`. */
  lemma RenderLineCount(p: Packet)
    ensures CountChar(Render(p), '\n') == 3 + |p.top| + |p.near|
  {
    HeaderLines(p);
    EntriesLines(p.top);
    EntriesLines(p.near);
    CaptionLines();
    RenderThen(p);
    CountCharAppend5(HeaderText(p), "top: \n", EntriesText(p.top), "near: \n", EntriesText(p.near), '\n');
  }

  /** Reading the rendered text back: an independent parser of the packet
      text, used to show that the text determines the packet. */
  function Expect(s: string, lit: string): (r: Option<string>)
    ensures r.Some? ==> |r.value| + |lit| == |s|
  {
    if HasPrefix(s, lit) then Some(s[|lit|..]) else None
  }

  lemma ExpectOf(lit: string, t: string)
    ensures Expect(lit + t, lit) == Some(t)
  {
    assert (lit + t)[..|lit|] == lit;
    assert (lit + t)[|lit|..] == t;
  }

  /** A literal caption followed by an integer. */
  function ExpectInt(s: string, lit: string): (r: Option<(int, string)>)
    ensures r.Some? ==> |r.value.1| < |s|
  {
    match Expect(s, lit)
    case None => None
    case Some(t) => ReadInt(t)
  }

  lemma ExpectIntOf(lit: string, n: int, rest: string)
    requires rest == [] || !IsDigit(rest[0])
    ensures ExpectInt(lit + (IntText(n) + rest), lit) == Some((n, rest))
  {
    ExpectOf(lit, IntText(n) + rest);
    ReadIntText(n, rest);
  }

  /** One entry line. */
  function ParseEntry(s: string): (r: Option<(Pair, string)>)
    ensures r.Some? ==> |r.value.1| < |s|
  {
    match ExpectInt(s, "\tid: ")
    case None => None
    case Some((u, s1)) =>
      match ExpectInt(s1, " amount: ")
      case None => None
      case Some((a, s2)) =>
        match Expect(s2, "\n")
        case None => None
        case Some(s3) => Some(((a, u), s3))
  }

  /** Entry lines for as long as they follow one another. */
  function ParseEntries(s: string): (r: (seq<Pair>, string))
    decreases |s|
  {
    match ParseEntry(s)
    case None => ([], s)
    case Some((x, rest)) =>
      var (more, s1) := ParseEntries(rest);
      ([x] + more, s1)
  }

  /** The header line. */
  function ParseHeader(s: string): (r: Option<(User, nat, string)>) {
    match ExpectInt(s, "id: ")
    case None => None
    case Some((u, s1)) =>
      match ExpectInt(s1, " position: ")
      case None => None
      case Some((pos, s2)) =>
        if pos < 0 then None
        else
          match Expect(s2, "\n")
          case None => None
          case Some(s3) => Some((u, pos, s3))
  }

  /** A caption line followed by its entry lines. */
  function ParseSection(s: string, caption: string): Option<(seq<Pair>, string)> {
    match Expect(s, caption)
    case None => None
    case Some(t) => Some(ParseEntries(t))
  }

  function ParsePacket(s: string): Option<Packet> {
    match ParseHeader(s)
    case None => None
    case Some((u, pos, s1)) =>
      match ParseSection(s1, "top: \n")
      case None => None
      case Some((top, s2)) =>
        match ParseSection(s2, "near: \n")
        case None => None
        case Some((near, s3)) =>
          if s3 == [] then Some(Packet(u, pos, top, near)) else None
  }

  lemma EntryTextThen(x: Pair, rest: string)
    ensures EntryText(x) + rest
      == "\tid: " + (IntText(x.1) + (" amount: " + (IntText(x.0) + ("\n" + rest))))
  {
  }

  /** An entry line is its two captioned integers and a line break. */
  lemma ParseEntryOf(s: string, u: User, s1: string, a: int, s2: string, s3: string)
    requires ExpectInt(s, "\tid: ") == Some((u, s1))
    requires ExpectInt(s1, " amount: ") == Some((a, s2))
    requires Expect(s2, "\n") == Some(s3)
    ensures ParseEntry(s) == Some(((a, u), s3))
  {
  }

  lemma EntryThenRoundTrip(x: Pair, rest: string)
    ensures ParseEntry("\tid: " + (IntText(x.1) + (" amount: " + (IntText(x.0) + ("\n" + rest)))))
      == Some((x, rest))
  {
    var s2 := "\n" + rest;
    var s1 := " amount: " + (IntText(x.0) + s2);
    ExpectIntOf("\tid: ", x.1, s1);
    ExpectIntOf(" amount: ", x.0, s2);
    ExpectOf("\n", rest);
    ParseEntryOf("\tid: " + (IntText(x.1) + s1), x.1, s1, x.0, s2, rest);
  }

  lemma EntryRoundTrip(x: Pair, rest: string)
    ensures ParseEntry(EntryText(x) + rest) == Some((x, rest))
  {
    EntryTextThen(x, rest);
    EntryThenRoundTrip(x, rest);
  }

  lemma EntriesTextThen(s: seq<Pair>, rest: string)
    requires s != []
    ensures EntriesText(s) + rest == EntryText(s[0]) + (EntriesText(s[1..]) + rest)
  {
  }

  /** Entry parsing stops at anything but a tab. */
  lemma ParseEntriesStop(s: string)
    requires s == [] || s[0] != '\t'
    ensures ParseEntries(s) == ([], s)
  {
    assert !HasPrefix(s, "\tid: ");
  }

  /** An entry line in front of text that parses as entries adds that entry
      in front. */
  lemma ParseEntriesStep(w: string, x: Pair, tail: string, more: seq<Pair>, rest: string)
    requires ParseEntry(w) == Some((x, tail))
    requires ParseEntries(tail) == (more, rest)
    ensures ParseEntries(w) == ([x] + more, rest)
  {
  }

  lemma HeadTail(s: seq<Pair>)
    requires s != []
    ensures [s[0]] + s[1..] == s
  {
  }

  lemma EntriesRoundTripCons(s: seq<Pair>, rest: string)
    requires s != []
    requires ParseEntries(EntriesText(s[1..]) + rest) == (s[1..], rest)
    ensures ParseEntries(EntriesText(s) + rest) == (s, rest)
  {
    var tail := EntriesText(s[1..]) + rest;
    EntriesTextThen(s, rest);
    EntryRoundTrip(s[0], tail);
    ParseEntriesStep(EntryText(s[0]) + tail, s[0], tail, s[1..], rest);
    HeadTail(s);
  }

  lemma {:induction false} EntriesRoundTrip(s: seq<Pair>, rest: string)
    requires rest == [] || rest[0] != '\t'
    ensures ParseEntries(EntriesText(s) + rest) == (s, rest)
    decreases |s|
  {
    if s == [] {
      assert EntriesText(s) + rest == rest;
      ParseEntriesStop(rest);
    } else {
      EntriesRoundTrip(s[1..], rest);
      EntriesRoundTripCons(s, rest);
    }
  }

  lemma SectionRoundTrip(caption: string, s: seq<Pair>, rest: string)
    requires rest == [] || rest[0] != '\t'
    ensures ParseSection(caption + (EntriesText(s) + rest), caption) == Some((s, rest))
  {
    ExpectOf(caption, EntriesText(s) + rest);
    EntriesRoundTrip(s, rest);
  }

  lemma HeaderTextThen(p: Packet, rest: string)
    ensures HeaderText(p) + rest
      == "id: " + (IntText(p.user) + (" position: " + (IntText(p.position) + ("\n" + rest))))
  {
  }

  lemma HeaderThenRoundTrip(p: Packet, rest: string)
    ensures ParseHeader("id: " + (IntText(p.user) + (" position: " + (IntText(p.position) + ("\n" + rest)))))
      == Some((p.user, p.position, rest))
  {
    var s2 := "\n" + rest;
    var s1 := " position: " + (IntText(p.position) + s2);
    ExpectIntOf("id: ", p.user, s1);
    ExpectIntOf(" position: ", p.position, s2);
    ExpectOf("\n", rest);
  }

  lemma HeaderRoundTrip(p: Packet, rest: string)
    ensures ParseHeader(HeaderText(p) + rest) == Some((p.user, p.position, rest))
  {
    HeaderTextThen(p, rest);
    HeaderThenRoundTrip(p, rest);
  }

  lemma SectionRoundTripEnd(caption: string, s: seq<Pair>)
    ensures ParseSection(caption + EntriesText(s), caption) == Some((s, []))
  {
    assert EntriesText(s) + [] == EntriesText(s);
    SectionRoundTrip(caption, s, []);
  }

  lemma ParsePacketOf(s: string, u: User, pos: nat, s1: string, top: seq<Pair>, s2: string, near: seq<Pair>)
    requires ParseHeader(s) == Some((u, pos, s1))
    requires ParseSection(s1, "top: \n") == Some((top, s2))
    requires ParseSection(s2, "near: \n") == Some((near, []))
    ensures ParsePacket(s) == Some(Packet(u, pos, top, near))
  {
  }

  /** The rendered text determines the packet: parsing it gives the packet
      back, position, top and near, in order. */
  lemma ParseRender(p: Packet)
    ensures ParsePacket(Render(p)) == Some(p)
  {
    var near := EntriesText(p.near);
    var s2 := "near: \n" + near;
    var s1 := "top: \n" + (EntriesText(p.top) + s2);
    RenderThen(p);
    HeaderRoundTrip(p, s1);
    SectionRoundTrip("top: \n", p.top, s2);
    SectionRoundTripEnd("near: \n", p.near);
    ParsePacketOf(Render(p), p.user, p.position, s1, p.top, s2, p.near);
  }

  /** `PacketsHandler`: the pending packets, the batch taken out by the last
      `pop`, and the stop flag (an atomic in the source). */
  class PacketsHandler {
    var unhandled: seq<Packet>
    var processing: seq<Packet>
    var stopped: bool

    /** The socket and destination address the constructor opens are not
        modelled. */
    constructor ()
      ensures unhandled == [] && processing == [] && !stopped
    {
      unhandled := [];
      processing := [];
      stopped := false;
    }

    /** `replace`: the pending packets become exactly the batch, in order;
        whatever was pending is discarded. */
    method Replace(batch: seq<Packet>)
      modifies this
      ensures unhandled == batch
      ensures processing == old(processing) && stopped == old(stopped)
    {
      unhandled := batch;
    }

    /** `put`: one packet joins the back of the queue. */
    method Put(p: Packet)
      modifies this
      ensures unhandled == old(unhandled) + [p]
      ensures processing == old(processing) && stopped == old(stopped)
    {
      unhandled := unhandled + [p];
    }

    /** `pop`, once its wait is over: the front packet moves into the
        processing batch whether or not the handler is stopped, and the
        result says whether to go on.  The wait ends when the handler is
        stopped or the queue is non-empty, and the source then always takes
        the front, so the queue must be non-empty. */
    method Pop() returns (ok: bool)
      requires unhandled != []
      modifies this
      ensures processing == [old(unhandled)[0]]
      ensures unhandled == old(unhandled)[1..]
      ensures ok == !stopped && stopped == old(stopped)
    {
      processing := [];
      processing := processing + [unhandled[0]];
      unhandled := unhandled[1..];
      ok := !stopped;
    }

    /** `stopProcessing`. */
    method StopProcessing()
      modifies this
      ensures stopped
      ensures unhandled == old(unhandled) && processing == old(processing)
    {
      stopped := true;
    }

    /** The first statement of `proccesing`: the stop flag is cleared, so a
        stop requested before the loop starts is forgotten. */
    method StartProcessing()
      modifies this
      ensures !stopped
      ensures unhandled == old(unhandled) && processing == old(processing)
    {
      stopped := false;
    }

    /** One round of the `proccesing` loop: `pop`, then the text of every
        packet in the processing batch, which is what is handed to
        `sendto`.  A stopped handler still dequeues a packet but sends
        nothing. */
    method ProcessStep() returns (sent: seq<string>)
      requires unhandled != []
      modifies this
      ensures unhandled == old(unhandled)[1..] && stopped == old(stopped)
      ensures processing == [old(unhandled)[0]]
      ensures sent == if old(stopped) then [] else [Render(old(unhandled)[0])]
    {
      var ok := Pop();
      sent := [];
      if ok {
        var i := 0;
        while i < |processing|
          invariant 0 <= i <= |processing|
          invariant |sent| == i
          invariant forall k :: 0 <= k < i ==> sent[k] == Render(processing[k])
        {
          sent := sent + [Render(processing[i])];
          i := i + 1;
        }
      }
    }
  }
}
