/** The terse multiline form of a list of devices, and that `parseDevices` undoes
    it. */
module EthernetPrint {
  import opened Common
  import opened Decimal
  import opened Terse
  import opened Ethernet

  /** A device as nmcli knows it; `note` is the state's name in parentheses. */
  datatype Source = Source(device: string, kind: string, connection: string, code: nat, note: string, addresses: seq<string>)

  const DEVICE_KEY: string := "GENERAL.DEVICE"
  const TYPE_KEY: string := "GENERAL.TYPE"
  const CONNECTION_KEY: string := "GENERAL.CONNECTION"
  const STATE_KEY: string := "GENERAL.STATE"

  function AddressKey(i: nat): string {
    "IP4.ADDRESS[" + Print(i) + "]"
  }

  function AddressLines(addresses: seq<string>, from: nat): seq<string> {
    if addresses == [] then []
    else [PrintField(Field(AddressKey(from), addresses[0]))] + AddressLines(addresses[1..], from + 1)
  }

  function Fields(d: Source): seq<Field> {
    [ Field(DEVICE_KEY, d.device), Field(TYPE_KEY, d.kind), Field(CONNECTION_KEY, d.connection),
      Field(STATE_KEY, PrintState(d.code, d.note)) ]
  }

  function PrintFields(fs: seq<Field>): seq<string> {
    seq(|fs|, i requires 0 <= i < |fs| => PrintField(fs[i]))
  }

  function Lines(d: Source): seq<string> {
    PrintFields(Fields(d)) + AddressLines(d.addresses, 1) + [""]
  }

  function AllLines(ds: seq<Source>): seq<string> {
    if ds == [] then [] else Lines(ds[0]) + AllLines(ds[1..])
  }

  function PrintDevices(ds: seq<Source>): string {
    Ended(AllLines(ds))
  }

  ghost predicate WellFormed(d: Source) {
    && d.device != "" && OneLine(d.device) && OneLine(d.kind) && OneLine(d.connection)
    && (forall i :: 0 <= i < |d.note| ==> !EndsLine(d.note[i]))
    && (forall i :: 0 <= i < |d.addresses| ==> OneLine(d.addresses[i]))
  }

  function RecordOf(d: Source): Record {
    Record(d.device, Some(d.kind), Some(d.connection), Some(d.code), d.addresses)
  }

  function EthernetViews(ds: seq<Source>): seq<Device> {
    if ds == [] then []
    else
      var d := ds[|ds| - 1];
      var before := EthernetViews(ds[..|ds| - 1]);
      if d.kind == "ethernet" then before + [Shown(d.device, d.connection, d.code, d.addresses)] else before
  }

  // ---- reading what was printed ----------------------------------------------------------

  lemma {:induction false} PrintedField(f: Field)
    requires f.key != ""
    ensures PrintField(f) != "" && ParseField(PrintField(f)) == Some(f)
  {
    FieldRoundTrip(f);
  }

  lemma {:induction false} AddressKeyIs(i: nat)
    ensures AddressKey(i) != "" && AddressKey(i)[0] == 'I' && IsAddressKey(AddressKey(i))
  {
  }

  lemma {:induction false} ReadMore(r: Reading, line: string, rest: seq<string>)
    requires ReadLine(r, line).Some?
    ensures ReadLines(r, [line] + rest) == ReadLines(ReadLine(r, line).value, rest)
  {
  }

  lemma {:induction false} ReadAddress(rs: seq<Record>, cur: Record, address: string, i: nat)
    ensures ReadLine(Reading(rs, Some(cur)), PrintField(Field(AddressKey(i), address)))
            == Some(Reading(rs, Some(cur.(addresses := cur.addresses + [address]))))
  {
    hide PrintField, AddressKey, IsAddressKey, ParseField, ParseState;
    AddressKeyIs(i);
    PrintedField(Field(AddressKey(i), address));
  }

  lemma {:induction false} ReadAddresses(rs: seq<Record>, cur: Record, addresses: seq<string>, from: nat, rest: seq<string>)
    ensures ReadLines(Reading(rs, Some(cur)), AddressLines(addresses, from) + rest)
            == ReadLines(Reading(rs, Some(cur.(addresses := cur.addresses + addresses))), rest)
    decreases |addresses|
  {
    hide ReadLine, ReadLines, PrintField, AddressKey;
    if addresses == [] {
      assert AddressLines(addresses, from) + rest == rest;
      assert cur.addresses + addresses == cur.addresses;
    } else {
      var f := Field(AddressKey(from), addresses[0]);
      var r := Reading(rs, Some(cur));
      var next := cur.(addresses := cur.addresses + [addresses[0]]);
      ReadAddress(rs, cur, addresses[0], from);
      var tail := AddressLines(addresses[1..], from + 1) + rest;
      ReadMore(r, PrintField(f), tail);
      assert AddressLines(addresses, from) + rest == [PrintField(f)] + tail;
      ReadAddresses(rs, next, addresses[1..], from + 1, rest);
      assert cur.addresses + [addresses[0]] + addresses[1..] == cur.addresses + addresses;
    }
  }

  /** Reading a device's lines adds exactly its record. */
  lemma {:induction false} ReadDevice(rs: seq<Record>, d: Source, rest: seq<string>)
    requires WellFormed(d)
    ensures ReadLines(Reading(rs, None), Lines(d) + rest) == ReadLines(Reading(rs + [RecordOf(d)], None), rest)
  {
    hide ReadLines, PrintField, AddressLines, IsAddressKey, ParseField, ParseState, PrintState;
    var f0, f1 := Field(DEVICE_KEY, d.device), Field(TYPE_KEY, d.kind);
    var f2, f3 := Field(CONNECTION_KEY, d.connection), Field(STATE_KEY, PrintState(d.code, d.note));
    PrintedField(f0);
    PrintedField(f1);
    PrintedField(f2);
    PrintedField(f3);
    StateRoundTrip(d.code, d.note);
    var c0 := Record(d.device, None, None, None, []);
    var c1 := c0.(kind := Some(d.kind));
    var c2 := c1.(connection := Some(d.connection));
    var c3 := c2.(code := Some(d.code));
    var t4 := [""] + rest;
    var t3 := AddressLines(d.addresses, 1) + t4;
    var t2 := [PrintField(f3)] + t3;
    var t1 := [PrintField(f2)] + t2;
    var t0 := [PrintField(f1)] + t1;
    assert PrintFields(Fields(d)) == [PrintField(f0), PrintField(f1), PrintField(f2), PrintField(f3)];
    assert Lines(d) + rest == [PrintField(f0)] + t0;
    ReadMore(Reading(rs, None), PrintField(f0), t0);
    ReadMore(Reading(rs, Some(c0)), PrintField(f1), t1);
    ReadMore(Reading(rs, Some(c1)), PrintField(f2), t2);
    ReadMore(Reading(rs, Some(c2)), PrintField(f3), t3);
    ReadAddresses(rs, c3, d.addresses, 1, t4);
    assert [] + d.addresses == d.addresses;
    ReadMore(Reading(rs, Some(RecordOf(d))), "", rest);
  }

  function Records(ds: seq<Source>): seq<Record> {
    seq(|ds|, i requires 0 <= i < |ds| => RecordOf(ds[i]))
  }

  lemma {:induction false} ReadAll(rs: seq<Record>, ds: seq<Source>, rest: seq<string>)
    requires forall i :: 0 <= i < |ds| ==> WellFormed(ds[i])
    ensures ReadLines(Reading(rs, None), AllLines(ds) + rest) == ReadLines(Reading(rs + Records(ds), None), rest)
    decreases |ds|
  {
    hide ReadLines, Lines, WellFormed;
    if ds == [] {
      assert AllLines(ds) + rest == rest && rs + Records(ds) == rs;
    } else {
      assert AllLines(ds) + rest == Lines(ds[0]) + (AllLines(ds[1..]) + rest);
      ReadDevice(rs, ds[0], AllLines(ds[1..]) + rest);
      ReadAll(rs + [RecordOf(ds[0])], ds[1..], rest);
      assert rs + [RecordOf(ds[0])] + Records(ds[1..]) == rs + Records(ds);
    }
  }

  lemma {:induction false} DevicesOfRecords(ds: seq<Source>)
    requires forall i :: 0 <= i < |ds| ==> ds[i].device != ""
    ensures Devices(Records(ds)) == Some(EthernetViews(ds))
    decreases |ds|
  {
    if ds != [] {
      var n := |ds| - 1;
      DevicesOfRecords(ds[..n]);
      assert Records(ds)[..n] == Records(ds[..n]);
    }
  }

  // ---- the text -------------------------------------------------------------------------------

  lemma {:induction false} FieldOneLine(f: Field)
    requires OneLine(f.key) && OneLine(f.value)
    ensures OneLine(PrintField(f))
  {
    EscapeAdds(f.key, '\r');
    EscapeAdds(f.key, '\n');
    EscapeAdds(f.value, '\r');
    EscapeAdds(f.value, '\n');
  }

  lemma {:induction false} DigitsOneLine(s: string)
    requires AllDigits(s)
    ensures OneLine(s)
  {
  }

  ghost predicate AllOneLine(lines: seq<string>) {
    forall i :: 0 <= i < |lines| ==> OneLine(lines[i])
  }

  lemma {:induction false} AddressesOneLine(addresses: seq<string>, from: nat)
    requires forall i :: 0 <= i < |addresses| ==> OneLine(addresses[i])
    ensures AllOneLine(AddressLines(addresses, from))
    decreases |addresses|
  {
    hide PrintField, Print;
    if addresses != [] {
      DigitsOneLine(Print(from));
      FieldOneLine(Field(AddressKey(from), addresses[0]));
      AddressesOneLine(addresses[1..], from + 1);
    }
  }

  lemma {:induction false} KeysOneLine()
    ensures OneLine(DEVICE_KEY) && OneLine(TYPE_KEY) && OneLine(CONNECTION_KEY) && OneLine(STATE_KEY)
  {
  }

  lemma {:induction false} StateOneLine(code: nat, note: string)
    requires forall i :: 0 <= i < |note| ==> !EndsLine(note[i])
    ensures OneLine(PrintState(code, note))
  {
  }

  lemma {:induction false} FieldsOneLine(fs: seq<Field>)
    requires forall i :: 0 <= i < |fs| ==> OneLine(fs[i].key) && OneLine(fs[i].value)
    ensures AllOneLine(PrintFields(fs))
  {
    hide PrintField, OneLine;
    forall i | 0 <= i < |fs|
      ensures OneLine(PrintFields(fs)[i])
    {
      FieldOneLine(fs[i]);
    }
  }

  lemma {:induction false} DeviceOneLine(d: Source)
    requires WellFormed(d)
    ensures AllOneLine(Lines(d))
  {
    DeviceFieldsOneLine(d);
    FieldsOneLine(Fields(d));
    AddressesOneLine(d.addresses, 1);
    BlankOneLine();
    hide AddressLines, PrintFields, Fields, OneLine;
  }

  lemma {:induction false} DeviceFieldsOneLine(d: Source)
    requires WellFormed(d)
    ensures forall i :: 0 <= i < |Fields(d)| ==> OneLine(Fields(d)[i].key) && OneLine(Fields(d)[i].value)
  {
    KeysOneLine();
    StateOneLine(d.code, d.note);
    hide OneLine, PrintState;
  }

  lemma {:induction false} BlankOneLine()
    ensures OneLine("")
  {
  }

  lemma {:induction false} LinesOneLine(ds: seq<Source>)
    requires forall i :: 0 <= i < |ds| ==> WellFormed(ds[i])
    ensures AllOneLine(AllLines(ds))
    decreases |ds|
  {
    hide Lines, WellFormed;
    if ds != [] {
      DeviceOneLine(ds[0]);
      LinesOneLine(ds[1..]);
    }
  }

  lemma {:induction false} TrimKeeps(s: string)
    requires s != "" && !IsSpace(s[0])
    ensures Trim(s) != ""
  {
    TrimRightKeeps(s);
  }

  lemma {:induction false} TrimRightKeeps(s: string)
    requires s != "" && !IsSpace(s[0])
    ensures TrimRight(s) != ""
    decreases |s|
  {
    if IsSpace(s[|s| - 1]) {
      TrimRightKeeps(s[..|s| - 1]);
    }
  }

  lemma {:induction false} PrintedStart(ds: seq<Source>)
    requires ds != []
    ensures PrintDevices(ds) != "" && !IsSpace(PrintDevices(ds)[0])
  {
    hide Escape, PrintField, Lines, Ended;
    PrintedFirst(ds[0]);
    EndedStart(AllLines(ds));
  }

  lemma {:induction false} PrintedFirst(d: Source)
    ensures Lines(d) != [] && Lines(d)[0] != "" && Lines(d)[0][0] == 'G'
  {
  }

  lemma {:induction false} EndedStart(lines: seq<string>)
    requires lines != [] && lines[0] != ""
    ensures Ended(lines) != "" && Ended(lines)[0] == lines[0][0]
  {
  }

  /** Printing any list of well-formed devices and parsing the text gives exactly
      its Ethernet devices, in sorted order. */
  lemma {:induction false} RoundTrip(l: Locale, ds: seq<Source>)
    requires forall i :: 0 <= i < |ds| ==> WellFormed(ds[i])
    ensures Parse(l, PrintDevices(ds)) == Some(Sorted(l, EthernetViews(ds)))
  {
    hide ReadLines, Lines, AllLines, Devices, Sorted, Split, ReplaceCrLf, Ended, Trim, EthernetViews;
    var lines := AllLines(ds);
    var text := PrintDevices(ds);
    if ds == [] {
      PrintedNothing(l);
    } else {
      PrintedStart(ds);
      TrimKeeps(text);
      LinesOneLine(ds);
      EndedHasNoCr(lines);
      NoPairUnchanged(text);
      SplitEnded(lines);
      ReadAll([], ds, [""]);
      assert [] + Records(ds) == Records(ds);
      LastBlank(Records(ds));
      DevicesOfRecords(ds);
    }
  }

  lemma {:induction false} LastBlank(rs: seq<Record>)
    ensures ReadLines(Reading(rs, None), [""]) == Some(Reading(rs, None))
  {
  }

  lemma {:induction false} PrintedNothing(l: Locale)
    ensures Trim(PrintDevices([])) == "" && Sorted(l, EthernetViews([])) == []
  {
  }
}
