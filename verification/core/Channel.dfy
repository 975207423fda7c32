/** A channel: frames and the checks `ChannelConn` makes on them (core/cs.go:23-130, 184-193). */
module Channel {

  datatype Command =
    | Dial           // 0x10
    | Back           // 0x20
    | Data           // 0x30
    | Close          // 0x40
    | Other(code: nat)

  datatype Frame = Frame(cmd: Command, payload: string)

  const CLOSE_FRAME := Frame(Close, "closed")

  /** What `ReadFrame` makes of a frame: `Closed` returns an error but leaves the channel usable,
      `Broken` also marks the channel. */
  datatype Reading = Fine | Closed | Broken

  function Classify(inUse: string, f: Frame): Reading {
    match f.cmd
    case Dial => if |inUse| > 0 then Broken else Fine
    case Back => if |inUse| > 0 then Broken else Fine
    case Data => if |inUse| < 1 then Broken else Fine
    case Close => Closed
    case Other(_) => Broken
  }

  datatype ReadResult = Got(frame: Frame) | Failed

  /** One end of a channel. `inbox` holds the frames that have arrived and not been read, `outbox`
      everything written; whether the raw connection fails is given to each call. */
  class ChannelConn {
    var error: bool
    var inUse: string
    var inbox: seq<Frame>
    var outbox: seq<Frame>
    var rawClosed: bool

    constructor ()
      ensures !error && inUse == "" && inbox == outbox == [] && !rawClosed
    {
      error, inUse, inbox, outbox, rawClosed := false, "", [], [], false;
    }

    method ReadFrame(fails: bool) returns (r: ReadResult, err: bool)
      modifies this`error, this`inbox
      ensures fails || old(inbox) == [] ==> r == Failed && err && error && inbox == old(inbox)
      ensures !fails && old(inbox) != [] ==>
                && r == Got(old(inbox)[0]) && inbox == old(inbox)[1..]
                && err == (Classify(inUse, r.frame) != Fine)
                && error == (old(error) || Classify(inUse, r.frame) == Broken)
    {
      if fails || inbox == [] {
        error := true;
        return Failed, true;
      }
      var f := inbox[0];
      inbox := inbox[1..];
      r, err := Got(f), false;
      match f.cmd {
        case Back | Dial =>
          if |inUse| > 0 {
            err, error := true, true;
          }
        case Data =>
          if |inUse| < 1 {
            err, error := true, true;
          }
        case Close =>
          err := true;
        case Other(_) =>
          err, error := true, true;
      }
    }

    method WriteCommand(cmd: Command, payload: string, fails: bool)
      modifies this`error, this`outbox
      ensures outbox == if fails then old(outbox) else old(outbox) + [Frame(cmd, payload)]
      ensures error == (old(error) || fails)
    {
      if fails {
        error := true;
      } else {
        outbox := outbox + [Frame(cmd, payload)];
      }
    }

    method WriteFrame(payload: string, fails: bool)
      modifies this`error, this`outbox
      ensures outbox == if fails then old(outbox) else old(outbox) + [Frame(Data, payload)]
      ensures error == (old(error) || fails)
    {
      WriteCommand(Data, payload, fails);
    }

    /** Closing a sound channel only sends a Close frame: the raw connection survives, and the channel
        can carry another session. Closing a marked one, or failing to send, closes the connection. */
    method CloseConn(fails: bool)
      modifies this`error, this`outbox, this`rawClosed
      ensures !old(error) && !fails ==>
                !error && outbox == old(outbox) + [CLOSE_FRAME] && rawClosed == old(rawClosed)
      ensures old(error) || fails ==> error && outbox == old(outbox) && rawClosed
    {
      if !error {
        WriteCommand(Close, "closed", fails);
      }
      if error {
        rawClosed := true;
      }
    }
  }
}
