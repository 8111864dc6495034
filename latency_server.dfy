/** The WebSocket latency server: it timestamps every data message it
    receives, forgets them on `RESET`, and on `DUMP` reports the histogram of
    the gaps between arrivals and forgets them. The clock reading is given as
    a whole number of milliseconds. */
module LatencyServer {
  import opened Results
  import opened Histogram

  /** What a `DUMP` prints: the number of deltas announced first, then one
      `delta<TAB>count` row per key of `counts`. */
  datatype Dump = Dump(announced: nat, rows: seq<(int, nat)>)

  /** The printing loop: one row per key of `counts`, in the order given. */
  method PrintRows(counts: map<int, nat>, keys: seq<int>) returns (rows: seq<(int, nat)>)
    requires forall k :: k in keys ==> k in counts
    ensures rows == Rows(counts, keys)
  {
    rows := [];
    for i := 0 to |keys|
      invariant |rows| == i
      invariant forall j :: 0 <= j < i ==> rows[j] == (keys[j], Get(counts, keys[j]))
    {
      var key := keys[i];
      assert key in keys;
      rows := rows + [(key, counts[key])];
    }
  }

  /** `printHistogramData` of the server. */
  method PrintHistogramData(data: seq<int>) returns (dump: Dump)
    ensures dump.announced == if |data| == 0 then 0 else |data| - 1
    ensures dump.rows == Report(data)
  {
    var deltaTimes := DeltaTimes(data);
    var counts, order := CountDeltas(deltaTimes);
    var keys := ObjectKeys(order);
    forall k | k in keys
      ensures k in counts
    {
      assert k in order && k in deltaTimes;
    }
    var rows := PrintRows(counts, keys);
    dump := Dump(|deltaTimes|, rows);
  }

  /** The server's state: the arrival times since the last `RESET` or `DUMP`. */
  class Server {
    var packetTimes: seq<int>

    constructor ()
      ensures packetTimes == []
    {
      packetTimes := [];
    }

    /** The `message` handler; `now` is the clock reading the handler takes
        when the message is neither `RESET` nor `DUMP`. */
    method OnMessage(message: string, now: int) returns (dump: Option<Dump>)
      modifies this
      ensures message == "RESET" ==> packetTimes == [] && dump == None
      ensures message == "DUMP" ==>
        packetTimes == [] &&
        dump == Some(Dump(|Deltas(old(packetTimes))|, Report(old(packetTimes))))
      ensures message != "RESET" && message != "DUMP" ==>
        packetTimes == old(packetTimes) + [now] && dump == None
    {
      if message == "RESET" {
        packetTimes := [];
        dump := None;
      } else if message == "DUMP" {
        DeltasShape(packetTimes);
        var printed := PrintHistogramData(packetTimes);
        dump := Some(printed);
        packetTimes := [];
      } else {
        packetTimes := packetTimes + [now];
        dump := None;
      }
    }
  }

  /** A whole session as the server sees it: `RESET`, then data messages,
      then `DUMP`. The dump describes exactly the arrival times of the data
      messages, whatever the server held before. */
  method Session(server: Server, data: seq<string>, arrivals: seq<int>) returns (dump: Option<Dump>)
    requires |arrivals| == |data|
    requires forall i :: 0 <= i < |data| ==> data[i] != "RESET" && data[i] != "DUMP"
    modifies server
    ensures server.packetTimes == []
    ensures dump == Some(Dump(|Deltas(arrivals)|, Report(arrivals)))
  {
    var _ := server.OnMessage("RESET", 0);
    for i := 0 to |data|
      invariant server.packetTimes == arrivals[..i]
    {
      assert arrivals[..i + 1] == arrivals[..i] + [arrivals[i]];
      var _ := server.OnMessage(data[i], arrivals[i]);
    }
    assert arrivals[..|data|] == arrivals;
    dump := server.OnMessage("DUMP", 0);
  }
}
