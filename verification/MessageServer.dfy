/** MessageServer: the queue of timed robot commands and the control mode. */
module MessageServer {
  const TWO_64: nat := 0x1_0000_0000_0000_0000

  type uint64 = x: nat | x < TWO_64
  type uint8 = x: nat | x < 256

  /** robot_server_data: the command kind, its due time, and everything else. */
  datatype Message = Message(kind: uint8, timeNs: uint64, body: int)

  const START: uint8 := 1
  const STOP: uint8 := 2
  const PAUSE: uint8 := 3
  const CONTINUE: uint8 := 4

  // ---- batches ----

  /** Length of the longest prefix whose messages all carry time t. */
  function RunLength(q: seq<Message>, t: uint64): (n: nat)
    ensures n <= |q|
    ensures forall i | 0 <= i < n :: q[i].timeNs == t
    ensures n < |q| ==> q[n].timeNs != t
  {
    if q == [] || q[0].timeNs != t then 0 else 1 + RunLength(q[1..], t)
  }

  function BatchLength(q: seq<Message>): (n: nat)
    ensures n <= |q| && (q != [] ==> n >= 1)
  {
    if q == [] then 0 else RunLength(q, q[0].timeNs)
  }

  /** The messages one fetch takes: all those at the front that are due together with the first. */
  function Batch(q: seq<Message>): seq<Message> {
    q[..BatchLength(q)]
  }

  lemma BatchIsMaximal(q: seq<Message>, n: nat)
    requires q != [] && n <= |q|
    ensures n == BatchLength(q) <==>
            1 <= n && (forall i | 0 <= i < n :: q[i].timeNs == q[0].timeNs) && (n < |q| ==> q[n].timeNs != q[0].timeNs)
  {
    var t := q[0].timeNs;
    var k := RunLength(q, t);
    if 1 <= n && (forall i | 0 <= i < n :: q[i].timeNs == t) && (n < |q| ==> q[n].timeNs != t) {
      if n < k { assert false; }
    }
  }

  class MessageServer {
    var serverData: seq<Message>
    var controlMode: uint8

    constructor ()
      ensures serverData == [] && controlMode == STOP
    {
      serverData, controlMode := [], STOP;
    }

    method SetMessageData(data: Message)
      modifies this
      ensures serverData == old(serverData) + [data] && controlMode == old(controlMode)
    {
      serverData := serverData + [data];
    }

    /** Takes one batch off the queue; an empty queue leaves the caller's data as it was. */
    method GetMessageData(was: seq<Message>) returns (ok: bool, data: seq<Message>)
      modifies this
      ensures controlMode == old(controlMode)
      ensures ok <==> old(serverData) != []
      ensures !ok ==> data == was && serverData == old(serverData)
      ensures ok ==> data != [] && data == Batch(old(serverData)) && data + serverData == old(serverData)
    {
      data := was;
      if serverData == [] { return false, data; }
      ghost var q := serverData;
      data := [serverData[0]];
      serverData := serverData[1..];
      while serverData != []
        invariant controlMode == old(controlMode)
        invariant 1 <= |data| && data + serverData == q
        invariant forall i | 0 <= i < |data| :: data[i].timeNs == q[0].timeNs
        decreases |serverData|
      {
        var next := serverData[0];
        if data[0].timeNs != next.timeNs { break; }
        data := data + [next];
        serverData := serverData[1..];
      }
      assert forall i | 0 <= i < |data| :: q[i] == data[i];
      assert serverData != [] ==> q[|data|] == serverData[0];
      BatchIsMaximal(q, |data|);
      assert q[..|data|] == data;
      return true, data;
    }

    method ClearMessageData()
      modifies this
      ensures serverData == [] && controlMode == old(controlMode)
    {
      while serverData != []
        invariant controlMode == old(controlMode)
        decreases |serverData|
      {
        serverData := serverData[1..];
      }
    }

    method SetControlMode(mode: uint8)
      modifies this
      ensures controlMode == mode && serverData == old(serverData)
    {
      controlMode := mode;
    }
  }
}
