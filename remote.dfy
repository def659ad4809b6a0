/**
 * The LEGO Powered Up remote handset. Notifications from the handset are
 * LEGO Wireless Protocol 3.0 messages: a common header (section 3.1 of
 * that protocol: length byte, hub id, message type) followed by command
 * or port bytes. Two kinds of message carry button states and are kept:
 * a port-value message for port 0 (left buttons) or port 1 (right
 * buttons), and a hub network command whose last byte is the center
 * button. The button query turns the stored bytes into a set of pressed
 * buttons.
 */
module Remote {
  import opened CInt
  import opened PbioError

  /** Message type of hub network commands. */
  const LWP3_MSG_TYPE_HW_NET_CMDS: Byte := 0x08
  /** Hub network command: connection request (sent on a center button press or release). */
  const LWP3_HW_NET_CMD_CONNECTION_REQ: Byte := 0x02
  /** Message type of a port value (single mode). */
  const LWP3_MSG_TYPE_PORT_VALUE: Byte := 0x45

  datatype Button = LeftUp | Left | LeftDown | RightUp | Right | RightDown | Center

  /**
   * What the notification handler may read: the length byte, and as many
   * bytes as it announces when it is one of the two lengths the handler
   * inspects further.
   */
  predicate Readable(value: seq<Byte>) {
    |value| >= 1 && (value[0] == 5 || value[0] == 7 ==> |value| >= value[0])
  }

  /** The handset singleton's button bytes. */
  class Remote {
    const left: array<Byte>
    const right: array<Byte>
    var center: Byte

    ghost predicate Valid()
      reads this
    {
      left.Length == 3 && right.Length == 3 && left != right
    }

    constructor ()
      ensures Valid() && fresh(left) && fresh(right)
      ensures left[..] == [0, 0, 0] && right[..] == [0, 0, 0] && center == 0
    {
      left := new Byte[3](_ => 0);
      right := new Byte[3](_ => 0);
      center := 0;
    }

    /** The byte that holds a button's state. */
    function ByteOf(b: Button): Byte
      requires Valid()
      reads this, left, right
    {
      match b
      case LeftUp => left[0]
      case Left => left[1]
      case LeftDown => left[2]
      case RightUp => right[0]
      case Right => right[1]
      case RightDown => right[2]
      case Center => center
    }

    /** The state reset at the start of connecting: every button byte zero. */
    method ResetState()
      requires Valid()
      modifies this, left, right
      ensures Valid()
      ensures left[..] == [0, 0, 0] && right[..] == [0, 0, 0] && center == 0
      ensures forall b :: ByteOf(b) == 0
    {
      left[0], left[1], left[2] := 0, 0, 0;
      right[0], right[1], right[2] := 0, 0, 0;
      center := 0;
    }

    /**
     * `handle_notification`: a connection request of length 5 updates the
     * center button; a port value of length 7 for port 0 or 1 replaces the
     * left or right button bytes; every other message is ignored.
     */
    method HandleNotification(value: seq<Byte>)
      requires Valid() && Readable(value)
      modifies this, left, right
      ensures Valid()
      ensures value[0] == 5 && value[2] == LWP3_MSG_TYPE_HW_NET_CMDS && value[3] == LWP3_HW_NET_CMD_CONNECTION_REQ ==>
        center == value[4] && left[..] == old(left[..]) && right[..] == old(right[..])
      ensures value[0] == 7 && value[2] == LWP3_MSG_TYPE_PORT_VALUE && value[3] == 0 ==>
        left[..] == value[4..7] && right[..] == old(right[..]) && center == old(center)
      ensures value[0] == 7 && value[2] == LWP3_MSG_TYPE_PORT_VALUE && value[3] == 1 ==>
        right[..] == value[4..7] && left[..] == old(left[..]) && center == old(center)
      ensures !(value[0] == 5 && value[2] == LWP3_MSG_TYPE_HW_NET_CMDS && value[3] == LWP3_HW_NET_CMD_CONNECTION_REQ) &&
              !(value[0] == 7 && value[2] == LWP3_MSG_TYPE_PORT_VALUE && (value[3] == 0 || value[3] == 1)) ==>
        left[..] == old(left[..]) && right[..] == old(right[..]) && center == old(center)
    {
      if value[0] == 5 && value[2] == LWP3_MSG_TYPE_HW_NET_CMDS && value[3] == LWP3_HW_NET_CMD_CONNECTION_REQ {
        center := value[4];
      } else if value[0] == 7 && value[2] == LWP3_MSG_TYPE_PORT_VALUE {
        if value[3] == 0 {
          forall j | 0 <= j < 3 {
            left[j] := value[4 + j];
          }
        } else if value[3] == 1 {
          forall j | 0 <= j < 3 {
            right[j] := value[4 + j];
          }
        }
      }
    }

    /**
     * `remote_button_is_pressed`: no device when the handset is not
     * connected; otherwise a button is pressed exactly when its byte is
     * nonzero. The set is built one button at a time, as the flags are.
     */
    method ButtonIsPressed(connected: bool) returns (r: Result<set<Button>>)
      requires Valid()
      ensures !connected ==> r == Err(NoDev)
      ensures connected ==> r.Ok? && forall b :: b in r.value <==> ByteOf(b) != 0
    {
      if !connected {
        return Err(NoDev);
      }
      var pressed: set<Button> := {};
      if left[0] != 0 {
        pressed := pressed + {LeftUp};
      }
      if left[1] != 0 {
        pressed := pressed + {Left};
      }
      if left[2] != 0 {
        pressed := pressed + {LeftDown};
      }
      if right[0] != 0 {
        pressed := pressed + {RightUp};
      }
      if right[1] != 0 {
        pressed := pressed + {Right};
      }
      if right[2] != 0 {
        pressed := pressed + {RightDown};
      }
      if center != 0 {
        pressed := pressed + {Center};
      }
      return Ok(pressed);
    }
  }
}
