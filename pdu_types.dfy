/** The channel, operation and scene types shared by the command-line tool and the proxy. */
module PduTypes {

  /** `enum channel { ch1 = 0, ..., ch8 }`: a channel is its zero-based outlet index. */
  type Channel = c: int | 0 <= c < 8

  const Ch1: Channel := 0
  const Ch2: Channel := 1
  const Ch3: Channel := 2
  const Ch4: Channel := 3
  const Ch5: Channel := 4
  const Ch6: Channel := 5
  const Ch7: Channel := 6
  const Ch8: Channel := 7

  /** `enum op_t { on = 0, off = 1 }`. */
  datatype Op = On | Off

  /** The integer value of an `op_t`, which is also the `op=` value on the wire. */
  function OpCode(op: Op): (code: nat)
    ensures code < 2
    ensures code == 0 <==> op == On
  {
    match op
    case On => 0
    case Off => 1
  }

  /** The `op_t` whose integer value is `code`, if there is one. */
  function OpOfCode(code: int): (op: Option<Op>)
  {
    if code == 0 then Some(On) else if code == 1 then Some(Off) else None
  }

  lemma OpCodeRoundTrip(op: Op)
    ensures OpOfCode(OpCode(op)) == Some(op)
  {
  }

  /** A scene: two independent channel sets, the one to switch off and the one to switch on. */
  datatype Scene = Scene(off: set<Channel>, on: set<Channel>)

  datatype Option<T> = None | Some(value: T)

  datatype Result<T, E> = Ok(value: T) | Err(error: E)
}
