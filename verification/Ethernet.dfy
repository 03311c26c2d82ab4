/** `parseDevices` of EthernetHelpers.js: from nmcli's terse multiline text to the
    sorted Ethernet devices, and back through the printed form. */
module Ethernet {
  import opened Common
  import opened Decimal
  import opened Terse

  const ACTIVATED := 100

  function StateStatus(code: nat): string {
    if code == 10 then "Unmanaged"
    else if code == 20 then "Unavailable"
    else if code == 30 then "Disconnected"
    else if code == 40 then "Connecting"
    else if code == 50 then "Configuring"
    else if code == 60 then "Authentication required"
    else if code == 70 then "Obtaining address"
    else if code == 80 then "Checking connection"
    else if code == 90 then "Finishing connection"
    else if code == ACTIVATED then "Connected"
    else if code == 110 then "Disconnecting"
    else if code == 120 then "Failed"
    else "Unknown"
  }

  datatype Device = Device(name: string, connection: string, code: nat, status: string, connected: bool, ipv4: string)

  /** A record being read; None where the field has not come, or not validly. */
  datatype Record = Record(device: string, kind: Option<string>, connection: Option<string>, code: Option<nat>,
                           addresses: seq<string>)

  // ---- addresses ------------------------------------------------------------------------

  function TrimLeft(s: string): string {
    if s != "" && IsSpace(s[0]) then TrimLeft(s[1..]) else s
  }

  function TrimRight(s: string): string {
    if s != "" && IsSpace(s[|s| - 1]) then TrimRight(s[..|s| - 1]) else s
  }

  function Trim(s: string): string {
    TrimRight(TrimLeft(s))
  }

  function BeforeSlash(s: string): string {
    if s == "" || s[0] == '/' then "" else [s[0]] + BeforeSlash(s[1..])
  }

  /** `groups` runs of one to three digits, joined by dots. */
  predicate Dotted(s: string, groups: nat)
    decreases groups
  {
    var n := DigitRun(s);
    && groups > 0 && 1 <= n <= 3
    && if groups == 1 then n == |s| else n < |s| && s[n] == '.' && Dotted(s[n + 1..], groups - 1)
  }

  function FirstIpv4(values: seq<string>): string {
    if values == [] then ""
    else
      var address := BeforeSlash(Trim(values[0]));
      if Dotted(address, 4) then address else FirstIpv4(values[1..])
  }

  predicate Octet(s: string) {
    1 <= |s| <= 3 && AllDigits(s)
  }

  function Quad(a: string, b: string, c: string, d: string): string {
    a + ("." + (b + ("." + (c + ("." + d)))))
  }

  lemma {:induction false} RunThen(a: string, rest: string)
    requires AllDigits(a) && (rest == "" || !IsDigit(rest[0]))
    ensures DigitRun(a + rest) == |a|
    decreases |a|
  {
    if a != "" {
      assert (a + rest)[1..] == a[1..] + rest;
      RunThen(a[1..], rest);
    } else {
      assert a + rest == rest;
    }
  }

  lemma {:induction false} GroupThen(a: string, rest: string, groups: nat)
    requires Octet(a) && groups > 0
    ensures Dotted(a + ("." + rest), groups + 1) <==> Dotted(rest, groups)
  {
    var s := a + ("." + rest);
    RunThen(a, "." + rest);
    assert s[|a|] == '.' && s[|a| + 1..] == rest;
  }

  /** Four octets with dots between them make an address. */
  lemma {:induction false} QuadIsDotted(a: string, b: string, c: string, d: string)
    requires Octet(a) && Octet(b) && Octet(c) && Octet(d)
    ensures Dotted(Quad(a, b, c, d), 4)
  {
    hide Dotted;
    GroupThen(a, b + ("." + (c + ("." + d))), 3);
    GroupThen(b, c + ("." + d), 2);
    GroupThen(c, d, 1);
    LastGroup(d);
  }

  lemma {:induction false} LastGroup(d: string)
    ensures Dotted(d, 1) <==> Octet(d)
  {
    if AllDigits(d) {
      RunThen(d, "");
      assert d + "" == d;
    }
  }

  /** And only they do. */
  lemma {:induction false} DottedIsQuad(s: string) returns (a: string, b: string, c: string, d: string)
    requires Dotted(s, 4)
    ensures Octet(a) && Octet(b) && Octet(c) && Octet(d) && s == Quad(a, b, c, d)
  {
    var r1, r2;
    a, r1 := SplitGroup(s, 3);
    b, r2 := SplitGroup(r1, 2);
    c, d := SplitGroup(r2, 1);
    LastGroup(d);
  }

  lemma {:induction false} SplitGroup(s: string, groups: nat) returns (a: string, rest: string)
    requires groups > 0 && Dotted(s, groups + 1)
    ensures Octet(a) && s == a + ("." + rest) && Dotted(rest, groups)
  {
    var n := DigitRun(s);
    a, rest := s[..n], s[n + 1..];
    assert s == a + ("." + rest);
  }

  /** The address of a device is that of its first value that has one, without
      the prefix length; "" exactly if none has. */
  lemma {:induction false} FirstIpv4Is(values: seq<string>)
    ensures FirstIpv4(values) == "" <==> forall v :: v in values ==> !Dotted(BeforeSlash(Trim(v)), 4)
    ensures FirstIpv4(values) != "" ==>
              exists i :: 0 <= i < |values| && Dotted(BeforeSlash(Trim(values[i])), 4) && FirstIpv4(values) == BeforeSlash(Trim(values[i]))
                          && forall k :: 0 <= k < i ==> !Dotted(BeforeSlash(Trim(values[k])), 4)
    decreases |values|
  {
    hide Dotted, Trim, BeforeSlash;
    if values != [] {
      NotBlank(BeforeSlash(Trim(values[0])));
      if !Dotted(BeforeSlash(Trim(values[0])), 4) {
        FirstIpv4Is(values[1..]);
        if FirstIpv4(values) != "" {
          var i :| 0 <= i < |values[1..]| && Dotted(BeforeSlash(Trim(values[1..][i])), 4) && FirstIpv4(values) == BeforeSlash(Trim(values[1..][i]))
            && forall k :: 0 <= k < i ==> !Dotted(BeforeSlash(Trim(values[1..][k])), 4);
          assert values[i + 1] == values[1..][i];
          assert forall k :: 0 < k < i + 1 ==> values[k] == values[1..][k - 1];
        }
      }
    }
  }

  lemma NotBlank(s: string)
    ensures Dotted(s, 4) ==> s != ""
  {
  }

  /** What nmcli prints of an address, read back. */
  lemma {:induction false} AddressRead(a: string, b: string, c: string, d: string, bits: string, rest: seq<string>)
    requires Octet(a) && Octet(b) && Octet(c) && Octet(d) && AllDigits(bits) && bits != ""
    ensures FirstIpv4([Quad(a, b, c, d) + "/" + bits] + rest) == Quad(a, b, c, d)
  {
    hide Dotted, Trim, BeforeSlash, Quad;
    var quad := Quad(a, b, c, d);
    var printed := quad + "/" + bits;
    QuadIsDotted(a, b, c, d);
    QuadPlain(a, b, c, d);
    TrimTight(printed);
    CutAtSlash(quad, bits);
    assert printed == quad + ("/" + bits);
    assert ([printed] + rest)[0] == printed;
  }

  lemma {:induction false} QuadPlain(a: string, b: string, c: string, d: string)
    requires Octet(a) && Octet(b) && Octet(c) && Octet(d)
    ensures '/' !in Quad(a, b, c, d) && Quad(a, b, c, d) != "" && Quad(a, b, c, d)[0] == a[0]
  {
  }

  lemma {:induction false} TrimTight(s: string)
    requires s != "" && !IsSpace(s[0]) && !IsSpace(s[|s| - 1])
    ensures Trim(s) == s
  {
  }

  lemma {:induction false} CutAtSlash(s: string, rest: string)
    requires '/' !in s
    ensures BeforeSlash(s + ("/" + rest)) == s
    decreases |s|
  {
    if s != "" {
      assert (s + ("/" + rest))[1..] == s[1..] + ("/" + rest);
      CutAtSlash(s[1..], rest);
    } else {
      assert s + ("/" + rest) == "/" + rest;
    }
  }

  // ---- reading lines -----------------------------------------------------------------------

  predicate IsAddressKey(key: string) {
    var head := "IP4.ADDRESS[";
    && head <= key && |key| > |head| + 1 && key[|key| - 1] == ']'
    && AllDigits(key[|head|..|key| - 1])
  }

  /** An address field's key is that head, a number and a closing bracket. */
  lemma {:induction false} AddressKeyIs(key: string, digits: string)
    ensures AllDigits(digits) && digits != "" ==> IsAddressKey("IP4.ADDRESS[" + digits + "]")
    ensures IsAddressKey(key) ==>
              var digits := key[12..|key| - 1]; digits != "" && AllDigits(digits) && key == "IP4.ADDRESS[" + digits + "]"
  {
    var head := "IP4.ADDRESS[";
    assert |head| == 12;
    assert (head + digits + "]")[12..|head + digits + "]"| - 1] == digits;
    if IsAddressKey(key) {
      assert key == key[..12] + key[12..|key| - 1] + [key[|key| - 1]];
    }
  }

  /** The records so far and the one being read. */
  datatype Reading = Reading(records: seq<Record>, current: Option<Record>)

  function FinishCurrent(r: Reading): Reading {
    if r.current.Some? then Reading(r.records + [r.current.value], None) else r
  }

  /** One line; None where the whole read must be given up. */
  function ReadLine(r: Reading, line: string): Option<Reading> {
    if line == "" then Some(FinishCurrent(r))
    else
      var f := ParseField(line);
      if f.None? then None
      else
        var Field(key, value) := f.value;
        if key == "GENERAL.DEVICE" then
          Some(FinishCurrent(r).(current := Some(Record(value, None, None, None, []))))
        else if r.current.None? then None
        else if key == "GENERAL.TYPE" then Some(r.(current := Some(r.current.value.(kind := Some(value)))))
        else if key == "GENERAL.CONNECTION" then Some(r.(current := Some(r.current.value.(connection := Some(value)))))
        else if key == "GENERAL.STATE" then Some(r.(current := Some(r.current.value.(code := ParseState(value)))))
        else if IsAddressKey(key) then
          Some(r.(current := Some(r.current.value.(addresses := r.current.value.addresses + [value]))))
        else None
  }

  function ReadLines(r: Reading, lines: seq<string>): Option<Reading>
    decreases |lines|
  {
    if lines == [] then Some(r)
    else
      var next := ReadLine(r, lines[0]);
      if next.None? then None else ReadLines(next.value, lines[1..])
  }

  // ---- devices ----------------------------------------------------------------------------------

  predicate Complete(r: Record) {
    r.device != "" && r.kind.Some? && r.connection.Some? && r.code.Some?
  }

  function Shown(name: string, connection: string, code: nat, addresses: seq<string>): Device {
    Device(name, if connection == "--" then "" else connection, code, StateStatus(code), code == ACTIVATED, FirstIpv4(addresses))
  }

  /** What a device shows: its name and code, its connection unless that is the
      dash, whether it is activated, in word and flag alike, and its address. */
  lemma {:induction false} ShownIs(name: string, connection: string, code: nat, addresses: seq<string>)
    ensures var d := Shown(name, connection, code, addresses);
            && d.name == name && d.code == code && d.ipv4 == FirstIpv4(addresses)
            && (d.connected <==> code == 100) && (d.status == "Connected" <==> d.connected)
            && (connection != "--" ==> d.connection == connection) && Shown(name, "--", code, addresses).connection == ""
  {
    hide FirstIpv4;
    StatusWord(code);
  }

  lemma {:induction false} StatusWord(code: nat)
    ensures StateStatus(code) == "Connected" <==> code == 100
  {
    assert |"Disconnected"| != |"Connected"| && |"Connecting"| != |"Connected"| && "Unmanaged"[0] != "Connected"[0];
  }

  function View(r: Record): Device
    requires Complete(r)
  {
    Shown(r.device, r.connection.value, r.code.value, r.addresses)
  }

  /** The Ethernet devices among complete records; None if one is incomplete. */
  function Devices(rs: seq<Record>): Option<seq<Device>> {
    if rs == [] then Some([])
    else
      var before, r := Devices(rs[..|rs| - 1]), rs[|rs| - 1];
      if before.None? || !Complete(r) then None
      else if r.kind == Some("ethernet") then Some(before.value + [View(r)])
      else before
  }

  /** The comparator: connected first, then by name in the locale's order. */
  function Compare(l: Locale, a: Device, b: Device): int {
    if a.connected != b.connected then (if a.connected then -1 else 1) else l(a.name, b.name)
  }

  function InsertDevice(l: Locale, sorted: seq<Device>, d: Device): (out: seq<Device>)
    ensures multiset(out) == multiset(sorted) + multiset{d}
  {
    if sorted == [] then [d]
    else if Compare(l, d, sorted[0]) < 0 then [d] + sorted
    else
      assert sorted == [sorted[0]] + sorted[1..];
      [sorted[0]] + InsertDevice(l, sorted[1..], d)
  }

  /** A stable sort, as the source's. */
  function Sorted(l: Locale, ds: seq<Device>): (out: seq<Device>)
    ensures multiset(out) == multiset(ds)
  {
    if ds == [] then []
    else
      assert ds == ds[..|ds| - 1] + [ds[|ds| - 1]];
      InsertDevice(l, Sorted(l, ds[..|ds| - 1]), ds[|ds| - 1])
  }

  ghost predicate InOrder(l: Locale, ds: seq<Device>) {
    forall i, j :: 0 <= i < j < |ds| ==> Compare(l, ds[i], ds[j]) <= 0
  }

  lemma {:induction false} CompareOrder(l: Locale, a: Device, b: Device, c: Device)
    requires IsOrder(l)
    ensures Compare(l, a, b) < 0 <==> Compare(l, b, a) > 0
    ensures Compare(l, a, b) <= 0 && Compare(l, b, c) <= 0 ==> Compare(l, a, c) <= 0
  {
  }

  lemma {:induction false} InsertInOrder(l: Locale, sorted: seq<Device>, d: Device)
    requires IsOrder(l) && InOrder(l, sorted)
    ensures InOrder(l, InsertDevice(l, sorted, d))
    decreases |sorted|
  {
    hide IsOrder, Compare;
    if sorted != [] {
      if Compare(l, d, sorted[0]) < 0 {
        forall j | 0 <= j < |sorted|
          ensures Compare(l, d, sorted[j]) <= 0
        {
          CompareOrder(l, d, sorted[0], sorted[j]);
        }
      } else {
        var tail := InsertDevice(l, sorted[1..], d);
        InsertInOrder(l, sorted[1..], d);
        forall q | q in tail
          ensures Compare(l, sorted[0], q) <= 0
        {
          assert q in multiset(tail);
          assert q == d || q in sorted[1..];
          CompareOrder(l, d, sorted[0], d);
          CompareOrder(l, sorted[0], d, d);
        }
      }
    }
  }

  /** Connected devices come first, each group in the locale's order. */
  ghost predicate ConnectedFirst(l: Locale, ds: seq<Device>) {
    forall i, j :: 0 <= i < j < |ds| ==>
      && (ds[j].connected ==> ds[i].connected)
      && (ds[i].connected == ds[j].connected ==> l(ds[i].name, ds[j].name) <= 0)
  }

  lemma {:induction false} SortedInOrder(l: Locale, ds: seq<Device>)
    requires IsOrder(l)
    ensures InOrder(l, Sorted(l, ds)) && ConnectedFirst(l, Sorted(l, ds))
    decreases |ds|
  {
    hide InOrder, IsOrder, ConnectedFirst;
    if ds != [] {
      SortedInOrder(l, ds[..|ds| - 1]);
      InsertInOrder(l, Sorted(l, ds[..|ds| - 1]), ds[|ds| - 1]);
    } else {
      EmptyInOrder(l);
    }
    InOrderMeans(l, Sorted(l, ds));
  }

  lemma EmptyInOrder(l: Locale)
    ensures InOrder(l, [])
  {
  }

  lemma {:induction false} InOrderMeans(l: Locale, ds: seq<Device>)
    requires InOrder(l, ds)
    ensures ConnectedFirst(l, ds)
  {
    forall i, j | 0 <= i < j < |ds|
      ensures ds[j].connected ==> ds[i].connected
      ensures ds[i].connected == ds[j].connected ==> l(ds[i].name, ds[j].name) <= 0
    {
      assert Compare(l, ds[i], ds[j]) <= 0;
    }
  }

  // ---- the whole read ------------------------------------------------------------------------------

  function FromLines(l: Locale, lines: seq<string>): Option<seq<Device>> {
    var read := ReadLines(Reading([], None), lines);
    if read.None? then None
    else
      var ds := Devices(FinishCurrent(read.value).records);
      if ds.None? then None else Some(Sorted(l, ds.value))
  }

  /** The devices of a whole text: none for a blank one, None for a text that
      does not parse. */
  function Parse(l: Locale, text: string): Option<seq<Device>> {
    if Trim(text) == "" then Some([]) else FromLines(l, Split(ReplaceCrLf(text)))
  }

  method ParseDevices(l: Locale, text: string) returns (r: Option<seq<Device>>)
    ensures r == Parse(l, text)
  {
    if Trim(text) == "" {
      return Some([]);
    }
    var lines := Split(ReplaceCrLf(text));
    var reading := Reading([], None);
    assert lines[0..] == lines;
    for i := 0 to |lines|
      invariant ReadLines(Reading([], None), lines) == ReadLines(reading, lines[i..])
    {
      assert lines[i..][0] == lines[i] && lines[i..][1..] == lines[i + 1..];
      var next := ReadLine(reading, lines[i]);
      if next.None? {
        return None;
      }
      reading := next.value;
    }
    var records := FinishCurrent(reading).records;
    var devices: seq<Device> := [];
    for j := 0 to |records|
      invariant Devices(records[..j]) == Some(devices)
    {
      assert records[..j + 1][..j] == records[..j];
      if !Complete(records[j]) {
        DevicesGiveUp(records, j);
        return None;
      }
      if records[j].kind == Some("ethernet") {
        devices := devices + [View(records[j])];
      }
    }
    assert records[..|records|] == records;
    return Some(Sorted(l, devices));
  }

  lemma {:induction false} DevicesGiveUp(rs: seq<Record>, j: nat)
    requires j < |rs| && !Complete(rs[j])
    ensures Devices(rs).None?
    decreases |rs|
  {
    if j < |rs| - 1 {
      DevicesGiveUp(rs[..|rs| - 1], j);
    }
  }

  /** A dangling escape in any line gives the whole read up. */
  lemma {:induction false} DanglingGivesUp(l: Locale, text: string, i: nat)
    requires Trim(text) != "" && i < |Split(ReplaceCrLf(text))| && Dangling(Split(ReplaceCrLf(text))[i], false)
    ensures Parse(l, text) == None
  {
    DanglingStops(Reading([], None), Split(ReplaceCrLf(text)), i);
  }

  lemma {:induction false} DanglingStops(r: Reading, lines: seq<string>, i: nat)
    requires i < |lines| && Dangling(lines[i], false)
    ensures ReadLines(r, lines).None?
    decreases |lines|
  {
    if i == 0 {
      DanglingIsNoField(lines[0]);
    } else {
      var next := ReadLine(r, lines[0]);
      if next.Some? {
        DanglingStops(next.value, lines[1..], i - 1);
      }
    }
  }
}
