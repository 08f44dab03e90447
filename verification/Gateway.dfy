/** One connection of the gateway: bytes in, messages out, however the bytes are cut up. */
module Gateway {
  import opened Types
  import opened WireMessages

  /** What a connection remembers between reads. */
  datatype Session = Session(inbound: seq<U8>, account: nat, open: bool)

  const CLOSED := Session([], 0, false)

  /** The account a message claims to act for, if any. */
  function Claimed(m: Message): nat {
    match m.content
    case NewOrderMessage(o) => o.account
    case CancelMessage(c) => c.account
    case ReplaceMessage(c) => c.account
    case _ => 0
  }

  /** A connection acts for one account only. */
  predicate Admits(account: nat, m: Message) {
    !ValidId(Claimed(m)) || !ValidId(account) || account == Claimed(m)
  }

  function Bound(account: nat, m: Message): nat {
    if ValidId(Claimed(m)) && !ValidId(account) then Claimed(m) else account
  }

  lemma WholeConsumes(data: seq<U8>)
    ensures var d := DecodeMessage(data); d.Whole? ==> 0 < d.consumed <= |data|
  {
    hide DecodeContent;
  }

  /** Delivers every whole message in the buffer and keeps the rest for later. */
  function Pump(s: Session): (Session, seq<Message>)
    decreases |s.inbound|
  {
    if !s.open then (CLOSED, [])
    else match DecodeMessage(s.inbound)
      case Partial => (s, [])
      case Malformed => (CLOSED, [])
      case Whole(m, n) =>
        WholeConsumes(s.inbound);
        if !Admits(s.account, m) then (CLOSED, [])
        else
          var rest := Pump(Session(s.inbound[n..], Bound(s.account, m), true));
          (rest.0, [m] + rest.1)
  }

  /** One read from the socket. */
  function Receive(s: Session, chunk: seq<U8>): (Session, seq<Message>) {
    Pump(s.(inbound := s.inbound + chunk))
  }

  function ReceiveAll(s: Session, chunks: seq<seq<U8>>): (Session, seq<Message>)
    decreases chunks
  {
    if chunks == [] then Pump(s)
    else
      var first := Receive(s, chunks[0]);
      var rest := ReceiveAll(first.0, chunks[1..]);
      (rest.0, first.1 + rest.1)
  }

  function Concat(chunks: seq<seq<U8>>): seq<U8> {
    if chunks == [] then [] else chunks[0] + Concat(chunks[1..])
  }

  /** One turn: wait for more, close, or deliver a message and go on. */
  lemma PumpTurn(inbound: seq<U8>, account: nat)
    ensures var s := Session(inbound, account, true);
            match DecodeMessage(inbound)
            case Partial => Pump(s) == (s, [])
            case Malformed => Pump(s) == (CLOSED, [])
            case Whole(m, n) =>
              && 0 < n <= |inbound|
              && (!Admits(account, m) ==> Pump(s) == (CLOSED, []))
              && (Admits(account, m) ==>
                    var rest := Pump(Session(inbound[n..], Bound(account, m), true)); Pump(s) == (rest.0, [m] + rest.1))
  {
    hide DecodeMessage;
    WholeConsumes(inbound);
  }

  lemma ClosedStays(s: Session)
    requires !s.open
    ensures Pump(s) == (CLOSED, [])
  {
  }

  /** Reading in two goes delivers what reading at once does. */
  lemma {:induction false} PumpSplit(s: Session, more: seq<U8>)
    ensures Receive(s, more) == (Receive(Pump(s).0, more).0, Pump(s).1 + Receive(Pump(s).0, more).1)
    decreases |s.inbound|
  {
    hide DecodeMessage, Pump;
    ClosedStays(CLOSED.(inbound := CLOSED.inbound + more));
    if !s.open {
      ClosedStays(s);
      ClosedStays(s.(inbound := s.inbound + more));
      assert Pump(s).1 + Receive(CLOSED, more).1 == [];
    } else {
      PumpTurn(s.inbound, s.account);
      PumpTurn(s.inbound + more, s.account);
      if DecodeMessage(s.inbound).Partial? {
        assert [] + Receive(s, more).1 == Receive(s, more).1;
      } else {
        FrameStable(s.inbound, more);
        if DecodeMessage(s.inbound).Whole? && Admits(s.account, DecodeMessage(s.inbound).message) {
          var Whole(m, n) := DecodeMessage(s.inbound);
          var rest := Session(s.inbound[n..], Bound(s.account, m), true);
          PumpSplit(rest, more);
          assert (s.inbound + more)[n..] == s.inbound[n..] + more;
          var x, y := Pump(rest).1, Receive(Pump(rest).0, more).1;
          assert [m] + (x + y) == [m] + x + y;
        }
      }
    }
  }

  /** What a connection delivers, and where it ends up, depends on the bytes alone and not on how
      they were cut into reads. */
  lemma {:induction false} ChunkingIrrelevant(s: Session, chunks: seq<seq<U8>>)
    ensures ReceiveAll(s, chunks) == Receive(s, Concat(chunks))
    decreases chunks
  {
    hide Pump;
    if chunks == [] {
      assert s.inbound + [] == s.inbound;
    } else {
      ChunkingIrrelevant(Receive(s, chunks[0]).0, chunks[1..]);
      PumpSplit(s.(inbound := s.inbound + chunks[0]), Concat(chunks[1..]));
      assert s.inbound + chunks[0] + Concat(chunks[1..]) == s.inbound + Concat(chunks);
    }
  }

  /** Messages sent back to back are received, in order and nothing else. */
  lemma {:induction false} StreamDelivered(ms: seq<Message>, account: nat)
    requires forall i :: 0 <= i < |ms| ==> Sendable(ms[i]) && (ValidId(Claimed(ms[i])) ==> Claimed(ms[i]) == account)
    ensures Pump(Session(Stream(ms), account, true)) == (Session([], account, true), ms)
  {
    hide DecodeMessage, EncodeMessage, Sendable;
    if ms == [] {
      NothingToRead();
    } else {
      var e, rest := EncodeMessage(ms[0]), Stream(ms[1..]);
      DecodeMessageExact(Stream(ms), ms[0], |e|);
      WholeConsumes(Stream(ms));
      assert Stream(ms)[|e|..] == rest;
      StreamDelivered(ms[1..], account);
      assert ms == [ms[0]] + ms[1..];
    }
  }

  /** All that a connection delivers is of one account: the one it is bound to, or the first that a
      message claims. */
  lemma {:induction false} OneAccount(s: Session)
    ensures var (t, ms) := Pump(s);
            && (t.open && s.account != 0 ==> t.account == s.account)
            && (forall i :: 0 <= i < |ms| && Claimed(ms[i]) != 0 && s.account != 0 ==> Claimed(ms[i]) == s.account)
            && (forall i, j :: 0 <= i < |ms| && 0 <= j < |ms| && Claimed(ms[i]) != 0 && Claimed(ms[j]) != 0 ==>
                  Claimed(ms[i]) == Claimed(ms[j]))
    decreases |s.inbound|
  {
    hide DecodeMessage, Pump, Claimed;
    if !s.open {
      ClosedStays(s);
    } else {
      PumpTurn(s.inbound, s.account);
      if DecodeMessage(s.inbound).Whole? && Admits(s.account, DecodeMessage(s.inbound).message) {
        var Whole(m, n) := DecodeMessage(s.inbound);
        OneAccount(Session(s.inbound[n..], Bound(s.account, m), true));
      }
    }
  }

  /** And a message that claims another one is not delivered: it ends the connection. */
  lemma AnotherAccountCloses(inbound: seq<U8>, account: nat)
    requires DecodeMessage(inbound).Whole? && account != 0
    ensures var claimed := Claimed(DecodeMessage(inbound).message);
            claimed != 0 && claimed != account ==> Pump(Session(inbound, account, true)) == (CLOSED, [])
  {
    hide DecodeMessage, Pump, Claimed;
    PumpTurn(inbound, account);
  }

  lemma NothingToRead()
    ensures DecodeMessage([]) == Partial
  {
  }

  function Stream(ms: seq<Message>): seq<U8> {
    if ms == [] then [] else EncodeMessage(ms[0]) + Stream(ms[1..])
  }

  class Connection {
    var inbound: seq<U8>
    var account: nat
    var open: bool

    constructor ()
      ensures Now() == Session([], 0, true)
    {
      inbound := [];
      account := 0;
      open := true;
    }

    ghost function Now(): Session
      reads this
    {
      if open then Session(inbound, account, true) else CLOSED
    }

    method Close()
      modifies this
      ensures Now() == CLOSED
    {
      open := false;
    }

    /** Takes in what one read of the socket returned. */
    method OnReadable(chunk: seq<U8>) returns (delivered: seq<Message>)
      requires open
      modifies this
      ensures (Now(), delivered) == Receive(old(Now()), chunk)
    {
      hide DecodeMessage, Pump;
      inbound := inbound + chunk;
      delivered := [];
      var offset: nat := 0;
      ghost var goal := Receive(old(Now()), chunk);
      assert inbound[0..] == inbound;
      while true
        invariant open && offset <= |inbound|
        invariant goal.0 == Pump(Session(inbound[offset..], account, true)).0
        invariant goal.1 == delivered + Pump(Session(inbound[offset..], account, true)).1
        decreases |inbound| - offset
      {
        var decoded := DecodeFrame(inbound[offset..]);
        PumpTurn(inbound[offset..], account);
        assert delivered + [] == delivered;
        if decoded.Partial? {
          break;
        }
        if decoded.Malformed? {
          Close();
          return;
        }
        var claimed := Claimed(decoded.message);
        if ValidId(claimed) {
          if !ValidId(account) {
            account := claimed;
          } else if account != claimed {
            Close();
            return;
          }
        }
        assert inbound[offset..][decoded.consumed..] == inbound[offset + decoded.consumed..];
        assert goal.1 == delivered + [decoded.message]
               + Pump(Session(inbound[offset + decoded.consumed..], account, true)).1;
        offset := offset + decoded.consumed;
        delivered := delivered + [decoded.message];
      }
      inbound := inbound[offset..];
    }
  }
}
