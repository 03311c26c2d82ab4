/** Lines of nmcli's terse output (EthernetHelpers.js): escaping, fields, the
    state value and splitting a text into lines. */
module Terse {
  import opened Common
  import opened Decimal

  datatype Field = Field(key: string, value: string)

  // ---- escapes --------------------------------------------------------------------------

  function Escape(s: string): string {
    if s == "" then ""
    else (if s[0] == '\\' || s[0] == ':' then ['\\', s[0]] else [s[0]]) + Escape(s[1..])
  }

  function Prepend(c: char, r: Option<string>): Option<string> {
    if r.None? then None else Some([c] + r.value)
  }

  /** The value without its escapes; None at a dangling one. */
  function Unescape(s: string, escaped: bool): Option<string> {
    if s == "" then (if escaped then None else Some(""))
    else if escaped then Prepend(s[0], Unescape(s[1..], false))
    else if s[0] == '\\' then Unescape(s[1..], true)
    else Prepend(s[0], Unescape(s[1..], false))
  }

  /** Whether reading the text stops inside an escape. */
  predicate Dangling(s: string, escaped: bool) {
    if s == "" then escaped else Dangling(s[1..], !escaped && s[0] == '\\')
  }

  /** The first colon that is not escaped, or the length. */
  function ColonAt(s: string, escaped: bool): (i: nat)
    ensures i <= |s|
  {
    if s == "" || (!escaped && s[0] == ':') then 0
    else 1 + ColonAt(s[1..], !escaped && s[0] == '\\')
  }

  function ParseField(line: string): Option<Field> {
    var i := ColonAt(line, false);
    if i == |line| then None
    else
      var key, value := Unescape(line[..i], false), Unescape(line[i + 1..], false);
      if key.None? || value.None? || key.value == "" then None else Some(Field(key.value, value.value))
  }

  lemma {:induction false} UnescapeEscape(s: string)
    ensures Unescape(Escape(s), false) == Some(s)
    decreases |s|
  {
    if s != "" {
      UnescapeEscape(s[1..]);
      var e := Escape(s);
      assert s == [s[0]] + s[1..];
      if s[0] == '\\' || s[0] == ':' {
        assert e[1..][0] == s[0] && e[1..][1..] == Escape(s[1..]);
      } else {
        assert e[1..] == Escape(s[1..]);
      }
    }
  }

  lemma {:induction false} ColonAfterEscape(s: string, rest: string)
    ensures ColonAt(Escape(s) + ":" + rest, false) == |Escape(s)|
    decreases |s|
  {
    var line := Escape(s) + ":" + rest;
    if s == "" {
      assert line[0] == ':';
    } else {
      ColonAfterEscape(s[1..], rest);
      if s[0] == '\\' || s[0] == ':' {
        assert line[0] == '\\' && line[1..][0] == s[0];
        assert line[1..][1..] == Escape(s[1..]) + ":" + rest;
      } else {
        assert line[1..] == Escape(s[1..]) + ":" + rest;
      }
    }
  }

  function PrintField(f: Field): string {
    Escape(f.key) + ":" + Escape(f.value)
  }

  /** Parsing a printed field gives the field. */
  lemma {:induction false} FieldRoundTrip(f: Field)
    requires f.key != ""
    ensures ParseField(PrintField(f)) == Some(f)
  {
    var line := PrintField(f);
    var i := |Escape(f.key)|;
    ColonAfterEscape(f.key, Escape(f.value));
    assert line[..i] == Escape(f.key) && line[i + 1..] == Escape(f.value);
    UnescapeEscape(f.key);
    UnescapeEscape(f.value);
  }

  lemma {:induction false} DanglingUnescape(s: string, escaped: bool)
    ensures Unescape(s, escaped).None? <==> Dangling(s, escaped)
    decreases |s|
  {
    if s != "" {
      DanglingUnescape(s[1..], !escaped && s[0] == '\\');
    }
  }

  lemma {:induction false} DanglingAfterColon(s: string, escaped: bool)
    requires ColonAt(s, escaped) < |s|
    ensures Dangling(s, escaped) <==> Dangling(s[ColonAt(s, escaped) + 1..], false)
    decreases |s|
  {
    if !escaped && s[0] == ':' {
    } else {
      var next := !escaped && s[0] == '\\';
      DanglingAfterColon(s[1..], next);
      assert s[1..][ColonAt(s[1..], next) + 1..] == s[ColonAt(s, escaped) + 1..];
    }
  }

  /** A line that stops inside an escape is no field at all. */
  lemma {:induction false} DanglingIsNoField(line: string)
    requires Dangling(line, false)
    ensures ParseField(line) == None
  {
    var i := ColonAt(line, false);
    if i < |line| {
      DanglingAfterColon(line, false);
      DanglingUnescape(line[i + 1..], false);
    }
  }

  method UnescapeValue(value: string) returns (r: Option<string>)
    ensures r == Unescape(value, false)
  {
    var out, escaped := "", false;
    GlueNothing(Unescape(value, false));
    assert value[0..] == value;
    for i := 0 to |value|
      invariant Unescape(value, false) == Glue(out, Unescape(value[i..], escaped))
    {
      assert value[i..][0] == value[i] && value[i..][1..] == value[i + 1..];
      GlueOne(out, value[i], Unescape(value[i + 1..], false));
      if escaped {
        out := out + [value[i]];
        escaped := false;
      } else if value[i] == '\\' {
        escaped := true;
      } else {
        out := out + [value[i]];
      }
    }
    assert out + "" == out;
    r := if escaped then None else Some(out);
  }

  lemma {:induction false} GlueNothing(r: Option<string>)
    ensures Glue("", r) == r
  {
    if r.Some? {
      assert "" + r.value == r.value;
    }
  }

  function Glue(out: string, r: Option<string>): Option<string> {
    if r.None? then None else Some(out + r.value)
  }

  lemma {:induction false} GlueOne(out: string, c: char, r: Option<string>)
    ensures Glue(out, Prepend(c, r)) == Glue(out + [c], r)
  {
    if r.Some? {
      assert out + ([c] + r.value) == out + [c] + r.value;
    }
  }

  method FieldLine(line: string) returns (r: Option<Field>)
    ensures r == ParseField(line)
  {
    var escaped := false;
    for i := 0 to |line|
      invariant ColonAt(line, false) == i + ColonAt(line[i..], escaped)
    {
      assert line[i..][1..] == line[i + 1..];
      if escaped {
        escaped := false;
      } else if line[i] == '\\' {
        escaped := true;
      } else if line[i] == ':' {
        var key := UnescapeValue(line[..i]);
        var value := UnescapeValue(line[i + 1..]);
        return if key.None? || value.None? || key.value == "" then None else Some(Field(key.value, value.value));
      }
    }
    return None;
  }

  // ---- the state value --------------------------------------------------------------------

  function DigitRun(s: string): (n: nat)
    ensures n <= |s| && AllDigits(s[..n])
    ensures n < |s| ==> !IsDigit(s[n])
  {
    if s == "" || !IsDigit(s[0]) then 0
    else
      var n := DigitRun(s[1..]);
      assert s[..n + 1] == [s[0]] + s[1..][..n];
      n + 1
  }

  function SpaceRun(s: string): (n: nat)
    ensures n <= |s| && (forall k :: 0 <= k < n ==> IsSpace(s[k]))
    ensures n < |s| ==> !IsSpace(s[n])
  {
    if s == "" || !IsSpace(s[0]) then 0 else 1 + SpaceRun(s[1..])
  }

  /** Nothing, or white space and a parenthesis that runs to the end. */
  predicate StateSuffix(s: string) {
    || s == ""
    || (var n := SpaceRun(s);
        n > 0 && n + 2 <= |s| && s[n] == '(' && s[|s| - 1] == ')' && forall i :: n < i < |s| - 1 ==> !EndsLine(s[i]))
  }

  function ParseState(value: string): Option<nat> {
    var n := DigitRun(value);
    if n > 0 && StateSuffix(value[n..]) then Some(Value(value[..n])) else None
  }

  function PrintState(code: nat, note: string): string {
    Print(code) + (" (" + note + ")")
  }

  lemma {:induction false} DigitRunOf(digits: string, rest: string)
    requires AllDigits(digits) && (rest == "" || !IsDigit(rest[0]))
    ensures DigitRun(digits + rest) == |digits|
  {
    var whole := digits + rest;
    assert whole[..|digits|] == digits && whole[|digits|..] == rest;
    assert forall k :: |digits| < k <= |whole| ==> whole[..k][|digits|] == rest[0];
  }

  lemma {:induction false} StateRoundTrip(code: nat, note: string)
    requires forall i :: 0 <= i < |note| ==> !EndsLine(note[i])
    ensures ParseState(PrintState(code, note)) == Some(code)
  {
    hide Print, Value, DigitRun;
    var digits, rest := Print(code), " (" + note + ")";
    DigitRunOf(digits, rest);
    var whole := PrintState(code, note);
    assert whole[..|digits|] == digits && whole[|digits|..] == rest;
    assert rest[1..][0] == '(' && SpaceRun(rest[1..]) == 0;
    assert SpaceRun(rest) == 1;
    assert forall i :: 1 < i < |rest| - 1 ==> rest[i] == note[i - 2];
    PrintValue(code);
  }

  /** Digits, alone or followed by white space and a note in parentheses that
      stays on the line. */
  ghost predicate Annotated(digits: string, spaces: string, note: string, value: string) {
    && digits != "" && AllDigits(digits)
    && (value == digits
        || (&& spaces != "" && (forall c :: c in spaces ==> IsSpace(c)) && (forall c :: c in note ==> !EndsLine(c))
            && value == digits + spaces + "(" + note + ")"))
  }

  /** Every such text is a state, whatever the note. */
  lemma {:induction false} AnnotatedState(digits: string, spaces: string, note: string, value: string)
    requires Annotated(digits, spaces, note, value)
    ensures ParseState(value) == Some(Value(digits))
  {
    hide Value, DigitRun, SpaceRun, AllDigits;
    if value == digits {
      assert digits + "" == digits;
      DigitRunOf(digits, "");
      assert value[..|digits|] == digits && value[|digits|..] == "";
    } else {
      var rest := spaces + "(" + note + ")";
      assert value == digits + rest;
      assert spaces[0] in spaces;
      DigitRunOf(digits, rest);
      assert value[..|digits|] == digits && value[|digits|..] == rest;
      SpaceRunOf(spaces, "(" + note + ")");
      assert rest == spaces + ("(" + note + ")");
      forall i | |spaces| < i < |rest| - 1
        ensures !EndsLine(rest[i])
      {
        assert rest[i] == note[i - |spaces| - 1];
      }
    }
  }

  lemma {:induction false} SpaceRunOf(spaces: string, rest: string)
    requires (forall c :: c in spaces ==> IsSpace(c)) && (rest == "" || !IsSpace(rest[0]))
    ensures SpaceRun(spaces + rest) == |spaces|
  {
    var whole := spaces + rest;
    assert forall k :: 0 <= k < |spaces| ==> whole[k] == spaces[k];
    assert rest != "" ==> whole[|spaces|] == rest[0];
  }

  /** And nothing else is one. */
  lemma {:induction false} StateIsAnnotated(value: string) returns (digits: string, spaces: string, note: string)
    requires ParseState(value).Some?
    ensures Annotated(digits, spaces, note, value) && ParseState(value) == Some(Value(digits))
  {
    hide Value, DigitRun, SpaceRun, IsSpace, EndsLine;
    var n := DigitRun(value);
    var rest := value[n..];
    digits, spaces, note := value[..n], "", "";
    assert value == digits + rest;
    if rest != "" {
      var m := SpaceRun(rest);
      spaces, note := rest[..m], rest[m + 1..|rest| - 1];
      assert rest == spaces + "(" + note + ")";
      forall c | c in note
        ensures !EndsLine(c)
      {
        var i :| 0 <= i < |note| && note[i] == c;
        assert rest[m + 1 + i] == c;
      }
      assert value == digits + spaces + "(" + note + ")";
    }
  }

  // ---- lines ----------------------------------------------------------------------------------

  function ReplaceCrLf(s: string): string {
    if |s| < 2 then s
    else if s[0] == '\r' && s[1] == '\n' then ReplaceCrLf(s[1..])
    else [s[0]] + ReplaceCrLf(s[1..])
  }

  /** Each CR LF becomes one LF. */
  lemma {:induction false} CrLfBecomesLf(before: string, after: string)
    ensures ReplaceCrLf(before + "\r\n" + after) == ReplaceCrLf(before) + ReplaceCrLf("\n" + after)
    ensures ReplaceCrLf("\n" + after) == "\n" + ReplaceCrLf(after)
    decreases |before|
  {
    hide ReplaceCrLf;
    var s := before + "\r\n" + after;
    LfStays(after);
    ReplaceFirst(s);
    ReplaceFirst(before);
    if before == "" {
      assert s[1..] == "\n" + after;
      assert ReplaceCrLf(before) == "";
    } else {
      var rest := before[1..] + "\r\n" + after;
      assert s[1..] == rest && s[0] == before[0];
      assert s[1] == if |before| == 1 then '\r' else before[1];
      CrLfBecomesLf(before[1..], after);
      ReplaceFirst("");
    }
  }

  lemma {:induction false} ReplaceFirst(s: string)
    ensures |s| < 2 ==> ReplaceCrLf(s) == s
    ensures |s| >= 2 ==> ReplaceCrLf(s) == (if s[0] == '\r' && s[1] == '\n' then "" else [s[0]]) + ReplaceCrLf(s[1..])
  {
  }

  lemma {:induction false} LfStays(after: string)
    ensures ReplaceCrLf("\n" + after) == "\n" + ReplaceCrLf(after)
  {
    var s := "\n" + after;
    assert s[1..] == after;
  }

  /** And nothing else changes. */
  lemma {:induction false} NoPairUnchanged(s: string)
    requires forall i :: 0 <= i < |s| - 1 && s[i] == '\r' ==> s[i + 1] != '\n'
    ensures ReplaceCrLf(s) == s
    decreases |s|
  {
    if |s| >= 2 {
      NoPairUnchanged(s[1..]);
      assert s == [s[0]] + s[1..];
    }
  }

  function Split(s: string): (lines: seq<string>)
    ensures lines != []
  {
    if s == "" then [""]
    else
      var rest := Split(s[1..]);
      if s[0] == '\n' then [""] + rest else [[s[0]] + rest[0]] + rest[1..]
  }

  /** Lines, each ended by a line feed. */
  function Ended(lines: seq<string>): string {
    if lines == [] then "" else lines[0] + "\n" + Ended(lines[1..])
  }

  lemma {:induction false} SplitLine(line: string, rest: string)
    requires '\n' !in line
    ensures Split(line + "\n" + rest) == [line] + Split(rest)
    decreases |line|
  {
    var s := line + "\n" + rest;
    if line == "" {
      assert s[0] == '\n' && s[1..] == rest;
    } else {
      SplitLine(line[1..], rest);
      assert s[1..] == line[1..] + "\n" + rest;
      assert line == [line[0]] + line[1..];
    }
  }

  lemma {:induction false} SplitEnded(lines: seq<string>)
    requires forall i :: 0 <= i < |lines| ==> '\n' !in lines[i]
    ensures Split(Ended(lines)) == lines + [""]
    decreases |lines|
  {
    if lines != [] {
      SplitEnded(lines[1..]);
      SplitLine(lines[0], Ended(lines[1..]));
      assert lines == [lines[0]] + lines[1..];
    }
  }

  lemma {:induction false} EndedHasNoCr(lines: seq<string>)
    requires forall i :: 0 <= i < |lines| ==> '\r' !in lines[i]
    ensures '\r' !in Ended(lines)
    decreases |lines|
  {
    if lines != [] {
      EndedHasNoCr(lines[1..]);
    }
  }

  lemma {:induction false} EscapeAdds(s: string, c: char)
    requires c !in s && c != '\\'
    ensures c !in Escape(s)
    decreases |s|
  {
    if s != "" {
      assert s == [s[0]] + s[1..];
      EscapeAdds(s[1..], c);
    }
  }
}
