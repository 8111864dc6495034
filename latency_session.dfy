/** Both ends of one latency session: the client's messages reach the
    server in the order they were sent, the server timestamping each data
    message on arrival. */
module LatencySession {
  import opened Results
  import opened Histogram
  import LatencyClient
  import LatencyServer

  /** `frames` are the client's clock readings at its animation frames and
      `arrivals` the server's clock readings as each payload arrives. Both
      sides report on the same 3600 packets: the server's dump describes the
      arrival times, the client's output the send times, and each announces
      and counts 3599 deltas. */
  method Measure(frames: seq<int>, arrivals: seq<int>)
    returns (printed: LatencyClient.Printed, dump: Option<LatencyServer.Dump>)
    requires |frames| >= LatencyClient.PacketLimit
    requires |arrivals| == LatencyClient.PacketLimit
    ensures LatencyClient.Describes(printed, frames[..LatencyClient.PacketLimit])
    ensures dump == Some(LatencyServer.Dump(|Deltas(arrivals)|, Report(arrivals)))
    ensures printed.announced == dump.value.announced == LatencyClient.PacketLimit - 1
    ensures CountSum(dump.value.rows) == LatencyClient.PacketLimit - 1
  {
    var client;
    client, printed := LatencyClient.Stream(frames);
    dump := Serve(client.sent, arrivals);
  }

  /** The server receives the client's messages in order, the `i`-th payload
      arriving at `arrivals[i]`. */
  method Serve(sent: seq<string>, arrivals: seq<int>) returns (dump: Option<LatencyServer.Dump>)
    requires |sent| == LatencyClient.PacketLimit + 2
    requires sent[0] == "RESET" && sent[LatencyClient.PacketLimit + 1] == "DUMP"
    requires forall i :: 1 <= i <= LatencyClient.PacketLimit ==> LatencyClient.IsPayload(sent[i])
    requires |arrivals| == LatencyClient.PacketLimit
    ensures dump == Some(LatencyServer.Dump(|Deltas(arrivals)|, Report(arrivals)))
    ensures dump.value.announced == LatencyClient.PacketLimit - 1
    ensures CountSum(dump.value.rows) == LatencyClient.PacketLimit - 1
  {
    var data := sent[1..LatencyClient.PacketLimit + 1];
    PayloadsAreData(sent, data);
    var server := new LatencyServer.Server();
    dump := LatencyServer.Session(server, data, arrivals);
    DeltasShape(arrivals);
    ReportSum(arrivals);
  }

  /** The client's payloads are all data messages to the server. */
  lemma PayloadsAreData(sent: seq<string>, data: seq<string>)
    requires |sent| == LatencyClient.PacketLimit + 2
    requires forall i :: 1 <= i <= LatencyClient.PacketLimit ==> LatencyClient.IsPayload(sent[i])
    requires data == sent[1..LatencyClient.PacketLimit + 1]
    ensures forall i :: 0 <= i < |data| ==> data[i] != "RESET" && data[i] != "DUMP"
  {
    forall i | 0 <= i < |data|
      ensures data[i] != "RESET" && data[i] != "DUMP"
    {
      assert data[i] == sent[i + 1];
      LatencyClient.PayloadIsData(sent[i + 1]);
    }
  }
}
