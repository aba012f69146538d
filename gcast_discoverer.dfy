/**
 * `GCastDiscoverer` (`src/audio/gcast_discoverer.rs`): finds Google Cast
 * devices by mDNS. Each answer is turned into a device from its address
 * record and the `key=value` entries of its TXT record (section 6 of RFC
 * 6763), and new devices are put at the front of the known list. The
 * messages sent to the UI are collected in `messages`.
 */
module GCastDiscoverer {
  import opened Wrappers
  import opened Strings

  /** An IPv4 or IPv6 address, as its 32- or 128-bit number. */
  datatype IpAddr = V4(bits: nat) | V6(bits: nat)

  /** The record kinds the discoverer looks at; everything else is `Other`. */
  datatype RecordKind = A(v4: nat) | AAAA(v6: nat) | TXT(values: seq<string>) | Other

  datatype Record = Record(name: string, kind: RecordKind)

  /** An mDNS response: its answer, name-server and additional sections. */
  datatype Response = Response(answers: seq<Record>, nameservers: seq<Record>, additional: seq<Record>)

  /** `GCastDevice`; its derived equality compares all three fields. */
  datatype GCastDevice = GCastDevice(id: string, ip: IpAddr, name: string)

  datatype Message = DiscoverStarted | DiscoverEnded | FoundDevice(device: GCastDevice)

  /** What `get_device` does with one response: no address, a device, or a panic. */
  datatype DeviceOutcome = NoAddress | Device(device: GCastDevice) | Panic

  /** `Response::records`: every record of the response, section after section. */
  function Records(response: Response): seq<Record> {
    response.answers + response.nameservers + response.additional
  }

  /** `record_to_ip_addr`: the address of an A or AAAA record. */
  function RecordToIpAddr(record: Record): (r: Option<IpAddr>)
    ensures r.Some? <==> record.kind.A? || record.kind.AAAA?
    ensures record.kind.A? ==> r == Some(V4(record.kind.v4))
    ensures record.kind.AAAA? ==> r == Some(V6(record.kind.v6))
  {
    match record.kind
    case A(a) => Some(V4(a))
    case AAAA(a) => Some(V6(a))
    case _ => None
  }

  /** `records().filter_map(record_to_ip_addr).next()`: the address of the first address record. */
  function FirstAddress(records: seq<Record>): (r: Option<IpAddr>)
    ensures r.None? <==> forall k :: 0 <= k < |records| ==> RecordToIpAddr(records[k]).None?
    ensures r.Some? ==> exists k :: 0 <= k < |records| && RecordToIpAddr(records[k]) == r
                                    && forall j :: 0 <= j < k ==> RecordToIpAddr(records[j]).None?
  {
    if records == [] then None
    else if RecordToIpAddr(records[0]).Some? then RecordToIpAddr(records[0])
    else
      assert forall k :: 0 <= k < |records| - 1 ==> records[1..][k] == records[k + 1];
      FirstAddress(records[1..])
  }

  /** The entries of the first TXT record, none if there is no TXT record. */
  function FirstTxt(records: seq<Record>): seq<string> {
    if records == [] then []
    else if records[0].kind.TXT? then records[0].kind.values
    else FirstTxt(records[1..])
  }

  /**
   * The `values` map after inserting the given TXT entries in order: key and
   * value are the first two pieces of `split('=')`, and a later key
   * overwrites an earlier one. An entry with no `=` makes `tmp[1]` panic: `None`.
   */
  function TxtValues(entries: seq<string>): Option<map<string, string>> {
    if entries == [] then Some(map[])
    else
      match TxtValues(entries[..|entries| - 1])
      case None => None
      case Some(m) =>
        var tmp := Split(entries[|entries| - 1], '=');
        if |tmp| < 2 then None else Some(m[tmp[0] := tmp[1]])
  }

  /** `get_device`: the address first, then the TXT entries, then the `id` and `fn` lookups. */
  function DeviceOf(response: Response): DeviceOutcome {
    match FirstAddress(Records(response))
    case None => NoAddress
    case Some(ip) =>
      match TxtValues(FirstTxt(response.additional))
      case None => Panic
      case Some(m) =>
        if "id" in m && "fn" in m then Device(GCastDevice(m["id"], ip, m["fn"])) else Panic
  }

  lemma {:induction false} FirstTxtFrom(records: seq<Record>, i: nat)
    requires i <= |records|
    requires forall j :: 0 <= j < i ==> !records[j].kind.TXT?
    ensures FirstTxt(records) == FirstTxt(records[i..])
  {
    if i > 0 {
      assert records[1..][i - 1..] == records[i..];
      FirstTxtFrom(records[1..], i - 1);
    }
  }

  /** The second piece of a split is the text between the first and the second separator. */
  lemma SplitSecondPiece(s: string, c: char, i: nat)
    requires IndexOf(s, c) == Some(i)
    ensures |Split(s, c)| >= 2
    ensures Split(s, c)[1] == (match IndexOf(s[i + 1..], c) case None => s[i + 1..] case Some(j) => s[i + 1..][..j])
  {
    SplitFirstPiece(s[i + 1..], c);
  }

  /**
   * An entry `key=value...` stores the text before the first `=` as the key
   * and the text up to the second `=` (or the end) as the value, overwriting
   * an earlier entry with that key.
   */
  lemma TxtEntryStored(entries: seq<string>, entry: string, i: nat, m: map<string, string>)
    requires TxtValues(entries) == Some(m) && IndexOf(entry, '=') == Some(i)
    ensures var rest := entry[i + 1..];
            var value := match IndexOf(rest, '=') case None => rest case Some(j) => rest[..j];
            TxtValues(entries + [entry]) == Some(m[entry[..i] := value])
  {
    var all := entries + [entry];
    assert all[..|all| - 1] == entries;
    SplitFirstPiece(entry, '=');
    SplitSecondPiece(entry, '=', i);
  }

  /** An entry with no `=` panics, whatever entries follow it. */
  lemma {:induction false} TxtEntryWithoutSeparator(entries: seq<string>, entry: string, later: seq<string>)
    requires '=' !in entry
    ensures TxtValues(entries + [entry] + later) == None
    decreases |later|
  {
    if later == [] {
      var all := entries + [entry];
      assert all + later == all;
      assert all[..|all| - 1] == entries;
      SplitHasSecondPiece(entry, '=');
    } else {
      var all := entries + [entry] + later;
      assert all[..|all| - 1] == entries + [entry] + later[..|later| - 1];
      TxtEntryWithoutSeparator(entries, entry, later[..|later| - 1]);
    }
  }

  /**
   * A response without an A or AAAA record gives no device; with one, the
   * device has that address, the `id` entry as its id and the `fn` entry as
   * its name, and it panics when either entry is missing.
   */
  lemma DeviceOfShape(response: Response)
    ensures DeviceOf(response) == NoAddress <==> forall k :: 0 <= k < |Records(response)| ==> RecordToIpAddr(Records(response)[k]).None?
    ensures DeviceOf(response).Device? ==>
      var m := TxtValues(FirstTxt(response.additional));
      && m.Some? && "id" in m.value && "fn" in m.value
      && DeviceOf(response).device == GCastDevice(m.value["id"], FirstAddress(Records(response)).value, m.value["fn"])
    ensures FirstAddress(Records(response)).Some? && TxtValues(FirstTxt(response.additional)).Some?
            && "id" !in TxtValues(FirstTxt(response.additional)).value
            ==> DeviceOf(response) == Panic
  {
  }

  predicate NoDuplicates(devices: seq<GCastDevice>) {
    forall i, j :: 0 <= i < j < |devices| ==> devices[i] != devices[j]
  }

  datatype ScanResult = ScanResult(known: seq<GCastDevice>, found: seq<GCastDevice>)

  /** What `get_device` makes of each response, in order. */
  ghost function Outcomes(responses: seq<Response>): (r: seq<DeviceOutcome>)
    ensures |r| == |responses|
  {
    if responses == [] then []
    else Outcomes(responses[..|responses| - 1]) + [DeviceOf(responses[|responses| - 1])]
  }

  /** The outcome at a position is what `get_device` makes of that response. */
  lemma {:induction false} OutcomeAt(responses: seq<Response>, i: nat)
    requires i < |responses|
    ensures Outcomes(responses)[i] == DeviceOf(responses[i])
  {
    var init := responses[..|responses| - 1];
    if i < |init| {
      OutcomeAt(init, i);
      assert init[i] == responses[i];
    }
  }

  /**
   * The known list and the devices reported, after a run over responses with
   * the given outcomes and no panic: a new device goes to the front of the
   * list and is reported.
   */
  function Scan(outcomes: seq<DeviceOutcome>): ScanResult
  {
    if outcomes == [] then ScanResult([], [])
    else Step(Scan(outcomes[..|outcomes| - 1]), outcomes[|outcomes| - 1])
  }

  /** The effect of one `get_device` outcome on the known list and the reported devices. */
  function Step(before: ScanResult, outcome: DeviceOutcome): ScanResult {
    match outcome
    case Device(d) =>
      if d in before.known then before else ScanResult([d] + before.known, before.found + [d])
    case _ => before
  }

  /** The position of the first outcome that is a panic of `get_device`. */
  function FirstPanic(outcomes: seq<DeviceOutcome>): (r: Option<nat>)
    ensures r.None? <==> forall k :: 0 <= k < |outcomes| ==> outcomes[k] != Panic
    ensures r.Some? ==> r.value < |outcomes| && outcomes[r.value] == Panic
                        && forall k :: 0 <= k < r.value ==> outcomes[k] != Panic
  {
    if outcomes == [] then None
    else if outcomes[0] == Panic then Some(0)
    else match FirstPanic(outcomes[1..])
      case None => None
      case Some(k) => Some(k + 1)
  }

  /** A panic with none before it is the first panic. */
  lemma FirstPanicAt(outcomes: seq<DeviceOutcome>, i: nat)
    requires i < |outcomes| && outcomes[i] == Panic
    requires forall k :: 0 <= k < i ==> outcomes[k] != Panic
    ensures FirstPanic(outcomes) == Some(i)
  {
  }

  /** The `FoundDevice` messages for the given devices, in order. */
  function FoundMessages(devices: seq<GCastDevice>): seq<Message>
  {
    if devices == [] then [] else FoundMessages(devices[..|devices| - 1]) + [FoundDevice(devices[|devices| - 1])]
  }

  /**
   * The known list never holds two equal devices, it is the reported devices
   * newest first, and every device some response yielded is in it.
   */
  lemma {:induction false} ScanInvariant(outcomes: seq<DeviceOutcome>)
    ensures NoDuplicates(Scan(outcomes).known)
    ensures |Scan(outcomes).known| == |Scan(outcomes).found|
    ensures forall k :: 0 <= k < |Scan(outcomes).known| ==>
              Scan(outcomes).known[k] == Scan(outcomes).found[|Scan(outcomes).found| - 1 - k]
    ensures forall k :: 0 <= k < |outcomes| && outcomes[k].Device? ==> outcomes[k].device in Scan(outcomes).known
  {
    if outcomes != [] {
      var init := outcomes[..|outcomes| - 1];
      ScanInvariant(init);
      assert forall k :: 0 <= k < |init| ==> outcomes[k] == init[k];
    }
  }

  lemma ScanStep(outcomes: seq<DeviceOutcome>, i: nat)
    requires i < |outcomes|
    ensures Scan(outcomes[..i + 1]) == Step(Scan(outcomes[..i]), outcomes[i])
  {
    assert outcomes[..i + 1][..i] == outcomes[..i];
  }

  lemma FoundMessagesSnoc(devices: seq<GCastDevice>, d: GCastDevice)
    ensures FoundMessages(devices + [d]) == FoundMessages(devices) + [FoundDevice(d)]
  {
    assert (devices + [d])[..|devices|] == devices;
  }

  class GCastDiscoverer {
    var knownDevices: seq<GCastDevice>
    var messages: seq<Message>

    ghost predicate Valid()
      reads this
    {
      NoDuplicates(knownDevices)
    }

    /** `GCastDiscoverer::new`: nothing known, nothing sent. */
    constructor ()
      ensures Valid() && knownDevices == [] && messages == []
    {
      knownDevices, messages := [], [];
    }

    /**
     * `get_device`: look for the address, then read the first TXT record's
     * entries into a map, then take `id` and `fn` from it.
     */
    static method GetDevice(response: Response) returns (outcome: DeviceOutcome)
      ensures outcome == DeviceOf(response)
    {
      var addr := FirstAddress(Records(response));
      if addr.None? {
        return NoAddress;
      }
      var additional := response.additional;
      var values: Option<map<string, string>> := Some(map[]);
      var i := 0;
      while i < |additional|
        invariant i <= |additional|
        invariant forall j :: 0 <= j < i ==> !additional[j].kind.TXT?
      {
        if additional[i].kind.TXT? {
          FirstTxtFrom(additional, i);
          values := ReadTxt(additional[i].kind.values);
          break;
        }
        i := i + 1;
      }
      if i == |additional| {
        FirstTxtFrom(additional, i);
      }
      assert values == TxtValues(FirstTxt(additional));
      match values
      case None =>
        return Panic;
      case Some(m) =>
        if "id" !in m || "fn" !in m {
          return Panic;
        }
        return Device(GCastDevice(m["id"], addr.value, m["fn"]));
    }

    /** The inner loop of `get_device`: insert each TXT entry's key and value; an entry with no `=` panics. */
    static method ReadTxt(entries: seq<string>) returns (values: Option<map<string, string>>)
      ensures values == TxtValues(entries)
    {
      var m: map<string, string> := map[];
      var k := 0;
      while k < |entries|
        invariant k <= |entries|
        invariant TxtValues(entries[..k]) == Some(m)
      {
        var tmp := Split(entries[k], '=');
        assert entries[..k + 1][..k] == entries[..k];
        if |tmp| < 2 {
          SplitHasSecondPiece(entries[k], '=');
          TxtEntryWithoutSeparator(entries[..k], entries[k], entries[k + 1..]);
          assert entries[..k] + [entries[k]] + entries[k + 1..] == entries;
          return None;
        }
        m := m[tmp[0] := tmp[1]];
        k := k + 1;
      }
      assert entries[..k] == entries;
      return Some(m);
    }

    /**
     * The discovery thread of `start_discover`, over the responses it
     * receives: clear the list, announce the start, add each new device at
     * the front and report it, announce the end. A panic in `get_device` ends
     * the thread where it happens; that run returns `crashed`.
     */
    method Discover(responses: seq<Response>) returns (crashed: bool)
      modifies this
      ensures Valid()
      ensures var outcomes := Outcomes(responses);
              && crashed == FirstPanic(outcomes).Some?
              && var n := if crashed then FirstPanic(outcomes).value else |responses|;
              && knownDevices == Scan(outcomes[..n]).known
              && messages == old(messages) + [DiscoverStarted] + FoundMessages(Scan(outcomes[..n]).found)
                             + (if crashed then [] else [DiscoverEnded])
    {
      ghost var outcomes := Outcomes(responses);
      knownDevices := [];
      messages := messages + [DiscoverStarted];
      ghost var start := messages;
      var i := 0;
      while i < |responses|
        invariant i <= |responses|
        invariant forall k :: 0 <= k < i ==> outcomes[k] != Panic
        invariant knownDevices == Scan(outcomes[..i]).known
        invariant messages == start + FoundMessages(Scan(outcomes[..i]).found)
        invariant start == old(messages) + [DiscoverStarted]
      {
        var outcome := Visit(responses, i);
        if outcome == Panic {
          FirstPanicAt(outcomes, i);
          ScanInvariant(outcomes[..i]);
          return true;
        }
        ScanStep(outcomes, i);
        Remember(outcome, Scan(outcomes[..i]), start);
        i := i + 1;
      }
      assert outcomes[..i] == outcomes;
      ScanInvariant(outcomes);
      messages := messages + [DiscoverEnded];
      return false;
    }

    /** `get_device` on the response at position `i` of the run. */
    static method Visit(responses: seq<Response>, i: nat) returns (outcome: DeviceOutcome)
      requires i < |responses|
      ensures outcome == Outcomes(responses)[i]
    {
      outcome := GetDevice(responses[i]);
      OutcomeAt(responses, i);
    }

    /** The loop body of the discovery thread for a response that yielded `outcome`: a new device is put at the front and reported. */
    method Remember(outcome: DeviceOutcome, ghost before: ScanResult, ghost start: seq<Message>)
      requires knownDevices == before.known && messages == start + FoundMessages(before.found)
      modifies this
      ensures knownDevices == Step(before, outcome).known
      ensures messages == start + FoundMessages(Step(before, outcome).found)
    {
      if outcome.Device? && outcome.device !in knownDevices {
        FoundMessagesSnoc(before.found, outcome.device);
        knownDevices := [outcome.device] + knownDevices;
        messages := messages + [FoundDevice(outcome.device)];
      }
    }

    /** `get_device_by_ip_addr`: the first known device with that address. */
    method GetDeviceByIpAddr(ip: IpAddr) returns (r: Option<GCastDevice>)
      ensures r.None? <==> forall k :: 0 <= k < |knownDevices| ==> knownDevices[k].ip != ip
      ensures r.Some? ==> exists k :: 0 <= k < |knownDevices| && knownDevices[k] == r.value && r.value.ip == ip
                                      && forall j :: 0 <= j < k ==> knownDevices[j].ip != ip
    {
      var i := 0;
      while i < |knownDevices|
        invariant i <= |knownDevices|
        invariant forall j :: 0 <= j < i ==> knownDevices[j].ip != ip
      {
        if knownDevices[i].ip == ip {
          return Some(knownDevices[i]);
        }
        i := i + 1;
      }
      return None;
    }
  }
}
