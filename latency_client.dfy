/** The WebSocket latency client: once connected it sends `RESET`, then on
    each animation frame records the time, sends 1024 random letters and
    counts the packet; after `tickHz * seconds` packets it sends `DUMP` and
    prints its own histogram. Clock readings are whole milliseconds. */
module LatencyClient {
  import opened Results
  import opened Histogram

  const TickHz := 60
  const Seconds := 60
  /** The number of packets a session sends: `tickHz * seconds`. */
  const PacketLimit := TickHz * Seconds
  const PayloadLength := 1024
  const Alphabet := "abcdefghijklmnopqrstuvwxyz"

  predicate IsLetters(s: string) {
    forall i :: 0 <= i < |s| ==> 'a' <= s[i] <= 'z'
  }

  /** `randomStr`: `len` letters, each picked by the random generator; a
      length that is not positive gives the empty string. */
  method RandomStr(len: int) returns (ans: string)
    ensures |ans| == if len > 0 then len else 0
    ensures IsLetters(ans)
  {
    ans := "";
    var i := len;
    while i > 0
      invariant len > 0 ==> 0 <= i <= len && |ans| == len - i
      invariant len <= 0 ==> i == len && ans == ""
      invariant IsLetters(ans)
    {
      var pick :| 0 <= pick < |Alphabet|;
      ans := ans + [Alphabet[pick]];
      i := i - 1;
    }
  }

  /** A data packet: never mistaken for `RESET` or `DUMP`. */
  predicate IsPayload(s: string) {
    |s| == PayloadLength && IsLetters(s)
  }

  lemma PayloadIsData(s: string)
    requires IsPayload(s)
    ensures s != "RESET" && s != "DUMP"
  {
  }

  /** What the client prints: the number of deltas, then the `DeltaMs`
      column, then the `Counts` column. */
  datatype Printed = Printed(announced: nat, deltaMs: seq<int>, counts: seq<nat>)

  /** `printed` is the client's output for `data`: the number of deltas,
      the keys of the report, then its counts. */
  predicate Describes(printed: Printed, data: seq<int>) {
    && printed.announced == |Deltas(data)|
    && printed.deltaMs == KeyColumn(Report(data))
    && printed.counts == CountColumn(Report(data))
  }

  /** The first printing loop: every key, in the order given. */
  method PrintKeyColumn(counts: map<int, nat>, keys: seq<int>) returns (deltaMs: seq<int>)
    ensures deltaMs == KeyColumn(Rows(counts, keys))
  {
    deltaMs := [];
    for i := 0 to |keys|
      invariant |deltaMs| == i
      invariant forall j :: 0 <= j < i ==> deltaMs[j] == keys[j]
    {
      deltaMs := deltaMs + [keys[i]];
    }
    ColumnsAligned(Rows(counts, keys));
  }

  /** The second printing loop: the count of every key, in the same order. */
  method PrintCountColumn(counts: map<int, nat>, keys: seq<int>) returns (column: seq<nat>)
    requires forall k :: k in keys ==> k in counts
    ensures column == CountColumn(Rows(counts, keys))
  {
    column := [];
    for i := 0 to |keys|
      invariant |column| == i
      invariant forall j :: 0 <= j < i ==> column[j] == Get(counts, keys[j])
    {
      var key := keys[i];
      assert key in keys;
      column := column + [counts[key]];
    }
    ColumnsAligned(Rows(counts, keys));
  }

  /** `printHistogramData` of the client: both columns walk the same keys,
      so the i-th count printed is the count of the i-th delta printed. */
  method PrintHistogramData(data: seq<int>) returns (printed: Printed)
    ensures printed.announced == if |data| == 0 then 0 else |data| - 1
    ensures Describes(printed, data)
    ensures |printed.deltaMs| == |printed.counts| == |Report(data)|
    ensures forall i :: 0 <= i < |printed.deltaMs| ==>
      (printed.deltaMs[i], printed.counts[i]) == Report(data)[i]
  {
    var deltaTimes := DeltaTimes(data);
    var counts, order := CountDeltas(deltaTimes);
    var keys := ObjectKeys(order);
    forall k | k in keys
      ensures k in counts
    {
      assert k in order && k in deltaTimes;
    }
    var deltaMs := PrintKeyColumn(counts, keys);
    var column := PrintCountColumn(counts, keys);
    ColumnsAligned(Report(data));
    printed := Printed(|deltaTimes|, deltaMs, column);
  }

  /** The client's state: the recorded times, the packet counter and the
      messages sent over the socket. */
  class Client {
    var packetTimes: seq<int>
    var packet: int
    var sent: seq<string>

    constructor ()
      ensures packetTimes == [] && packet == 0 && sent == []
    {
      packetTimes, packet, sent := [], 0, [];
    }

    /** `onopen`: send `RESET` and start counting packets from zero. */
    method OnOpen()
      modifies this`sent, this`packet
      ensures sent == old(sent) + ["RESET"]
      ensures packet == 0
    {
      sent := sent + ["RESET"];
      packet := 0;
    }

    /** `tick`, with `now` the rounded clock reading: record it, send a
        payload, count the packet; after the last packet send `DUMP` and
        print the histogram instead of asking for another frame. */
    method Tick(now: int) returns (printed: Option<Printed>)
      modifies this
      ensures packetTimes == old(packetTimes) + [now]
      ensures packet == old(packet) + 1
      ensures |sent| == |old(sent)| + (if packet < PacketLimit then 1 else 2)
      ensures forall i :: 0 <= i < |old(sent)| ==> sent[i] == old(sent)[i]
      ensures IsPayload(sent[|old(sent)|])
      ensures printed.Some? <==> packet >= PacketLimit
      ensures printed.Some? ==> sent[|sent| - 1] == "DUMP" && Describes(printed.value, packetTimes)
    {
      packetTimes := packetTimes + [now];
      var payload := RandomStr(PayloadLength);
      sent := sent + [payload];
      packet := packet + 1;
      if packet < PacketLimit {
        printed := None;
      } else {
        sent := sent + ["DUMP"];
        var p := PrintHistogramData(packetTimes);
        printed := Some(p);
      }
    }
  }

  /** One session: the socket opens, then each animation frame runs `tick`
      with the next clock reading. The first `tickHz * seconds - 1` ticks ask
      for another frame; the next one sends `DUMP` and prints, so 3600 times
      are recorded and 3600 payloads sent between `RESET` and `DUMP`. */
  method Stream(frames: seq<int>) returns (client: Client, printed: Printed)
    requires |frames| >= PacketLimit
    ensures client.packet == PacketLimit == 3600
    ensures client.packetTimes == frames[..PacketLimit]
    ensures |client.sent| == PacketLimit + 2
    ensures client.sent[0] == "RESET" && client.sent[PacketLimit + 1] == "DUMP"
    ensures forall i :: 1 <= i <= PacketLimit ==> IsPayload(client.sent[i])
    ensures printed.announced == PacketLimit - 1
    ensures Describes(printed, frames[..PacketLimit])
  {
    client := new Client();
    client.OnOpen();
    Payloads(client, frames);
    printed := LastTick(client, frames);
  }

  /** The last frame: its tick sends the last payload, then `DUMP`, and
      prints the histogram of all the recorded times. */
  method LastTick(client: Client, frames: seq<int>) returns (printed: Printed)
    requires |frames| >= PacketLimit
    requires client.packet == PacketLimit - 1
    requires client.packetTimes == frames[..PacketLimit - 1]
    requires |client.sent| == PacketLimit
    modifies client
    ensures client.packet == PacketLimit
    ensures client.packetTimes == frames[..PacketLimit]
    ensures |client.sent| == PacketLimit + 2
    ensures forall i :: 0 <= i < PacketLimit ==> client.sent[i] == old(client.sent[i])
    ensures IsPayload(client.sent[PacketLimit]) && client.sent[PacketLimit + 1] == "DUMP"
    ensures printed.announced == PacketLimit - 1
    ensures Describes(printed, frames[..PacketLimit])
  {
    assert frames[..PacketLimit] == frames[..PacketLimit - 1] + [frames[PacketLimit - 1]];
    var result := client.Tick(frames[PacketLimit - 1]);
    DeltasShape(client.packetTimes);
    printed := result.value;
  }

  /** The frames before the last one: each tick records its time, sends a
      payload and asks for another frame. */
  method Payloads(client: Client, frames: seq<int>)
    requires |frames| >= PacketLimit
    requires client.packet == 0 && client.packetTimes == [] && client.sent == ["RESET"]
    modifies client
    ensures client.packet == PacketLimit - 1
    ensures client.packetTimes == frames[..PacketLimit - 1]
    ensures |client.sent| == PacketLimit
    ensures client.sent[0] == "RESET"
    ensures forall i :: 1 <= i < PacketLimit ==> IsPayload(client.sent[i])
  {
    var frame := 0;
    while frame < PacketLimit - 1
      invariant 0 <= frame <= PacketLimit - 1
      invariant client.packet == frame && client.packetTimes == frames[..frame]
      invariant |client.sent| == 1 + frame
      invariant client.sent[0] == "RESET"
      invariant forall i :: 1 <= i <= frame ==> IsPayload(client.sent[i])
    {
      assert frames[..frame + 1] == frames[..frame] + [frames[frame]];
      var result := client.Tick(frames[frame]);
      frame := frame + 1;
    }
  }
}
