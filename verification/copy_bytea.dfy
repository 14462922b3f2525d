/** Decoding the text forms of a bytea column, and what survives the whole dump. */
module CopyBytea {
  import opened Common
  import opened CopyText

  /** `Null` stands for Python's None, `Raises` for an uncaught ValueError. */
  datatype Decoded = Null | Data(bytes: Bytes) | Raises

  function HexValue(c: char): int {
    if '0' <= c <= '9' then c as int - '0' as int
    else if 'a' <= c <= 'f' then c as int - 'a' as int + 10
    else if 'A' <= c <= 'F' then c as int - 'A' as int + 10
    else -1
  }

  predicate IsHex(c: char) {
    HexValue(c) >= 0
  }

  /** `bytes.fromhex`: pairs of digits, spaces allowed between pairs. */
  function FromHex(s: string): Option<Bytes>
    decreases |s|
  {
    if s == "" then Some([])
    else if IsBlank(s[0]) then FromHex(s[1..])
    else if |s| < 2 || !IsHex(s[0]) || !IsHex(s[1]) then None
    else
      match FromHex(s[2..])
      case None => None
      case Some(r) => Some([Pair(s[0], s[1])] + r)
  }

  function Pair(a: char, b: char): byte
    requires IsHex(a) && IsHex(b)
  {
    16 * HexValue(a) + HexValue(b)
  }

  predicate IsOctal(c: char) {
    '0' <= c <= '7'
  }

  function OctalDigit(c: char): nat
    requires IsOctal(c)
  {
    c as int - '0' as int
  }

  /** `int(abc, 8)` for a string whose first character is an octal digit: trailing spaces, one
      inner underscore and the prefix `0o` are allowed, anything else raises. */
  function OctalValue(a: char, b: char, c: char): Option<nat>
    requires IsOctal(a)
  {
    if IsOctal(b) && IsOctal(c) then Some(64 * OctalDigit(a) + 8 * OctalDigit(b) + OctalDigit(c))
    else if IsOctal(b) && IsBlank(c) then Some(8 * OctalDigit(a) + OctalDigit(b))
    else if b == '_' && IsOctal(c) then Some(8 * OctalDigit(a) + OctalDigit(c))
    else if a == '0' && (b == 'o' || b == 'O') && IsOctal(c) then Some(OctalDigit(c))
    else if IsBlank(b) && IsBlank(c) then Some(OctalDigit(a))
    else None
  }

  function HexRun(s: string): string {
    if s != "" && IsHex(s[0]) then [s[0]] + HexRun(s[1..]) else ""
  }

  /** The escape-format loop on the rest of the text when `out` is decoded already. */
  function DecodeFrom(s: string, out: Bytes): Decoded
    decreases |s|
  {
    if s == "" then Data(out)
    else if s[0] == '\\' && |s| > 1 then
      var n := s[1];
      if IsOctal(n) && |s| > 3 then
        match OctalValue(n, s[2], s[3])
        case None => Raises
        case Some(v) => if v < 256 then DecodeFrom(s[4..], out + [v]) else Raises
      else if n == '\\' then DecodeFrom(s[2..], out + [92])
      else if n == 'x' && |s| > 2 then
        match FromHex(HexRun(s[2..]))
        case None => Null
        case Some(h) => Data(h + out)
      else if n as int < 256 then DecodeFrom(s[2..], out + [n as int]) else Raises
    else if s[0] as int < 256 then DecodeFrom(s[1..], out + [s[0] as int]) else Raises
  }

  function Decode(raw: string): Decoded {
    if raw == "" then Null
    else if |raw| >= 2 && raw[0] == '\\' && (raw[1] == 'x' || raw[1] == 'X') then
      match FromHex(raw[2..])
      case None => Null
      case Some(b) => Data(b)
    else DecodeFrom(raw, [])
  }

  method TakeHex(raw: string, from: nat) returns (run: string)
    requires from <= |raw|
    ensures run == HexRun(raw[from..])
  {
    var j := from;
    run := "";
    ghost var rest := raw[from..];
    while j < |raw| && IsHex(raw[j])
      invariant from <= j <= |raw| && rest == raw[j..]
      invariant run + HexRun(rest) == HexRun(raw[from..])
    {
      assert run + ([rest[0]] + HexRun(rest[1..])) == (run + [rest[0]]) + HexRun(rest[1..]);
      run, j, rest := run + [raw[j]], j + 1, rest[1..];
    }
    assert run + "" == run;
  }

  /** `decode_bytea`. */
  method DecodeBytea(raw: string) returns (d: Decoded)
    ensures d == Decode(raw)
  {
    if raw == "" {
      return Null;
    }
    if |raw| >= 2 && raw[0] == '\\' && (raw[1] == 'x' || raw[1] == 'X') {
      return match FromHex(raw[2..]) case None => Null case Some(b) => Data(b);
    }
    var out: Bytes := [];
    var i := 0;
    assert raw[0..] == raw;
    ghost var goal := DecodeFrom(raw, []);
    while i < |raw|
      invariant 0 <= i <= |raw|
      invariant DecodeFrom(raw[i..], out) == goal
    {
      ghost var rest := raw[i..];
      if raw[i] == '\\' && i + 1 < |raw| {
        var done, used, bytes := DecodeBackslash(raw, i, out);
        if done.Some? {
          return done.value;
        }
        assert rest[used..] == raw[i + used..];
        out, i := bytes, i + used;
        continue;
      }
      if raw[i] as int >= 256 {
        return Raises;
      }
      assert rest[1..] == raw[i + 1..];
      out, i := out + [raw[i] as int], i + 1;
    }
    return Data(out);
  }

  /** The branch for a backslash at `i`: it ends the decoding or consumes `used` characters. */
  method DecodeBackslash(raw: string, i: nat, out: Bytes) returns (done: Option<Decoded>, used: nat, bytes: Bytes)
    requires i + 1 < |raw| && raw[i] == '\\'
    ensures done.Some? ==> done.value == DecodeFrom(raw[i..], out)
    ensures done.None? ==> 0 < used <= |raw| - i && DecodeFrom(raw[i..], out) == DecodeFrom(raw[i..][used..], bytes)
  {
    done, used, bytes := None, 2, out;
    var n := raw[i + 1];
    if IsOctal(n) && i + 3 < |raw| {
      var v := OctalValue(n, raw[i + 2], raw[i + 3]);
      if v.None? || v.value >= 256 {
        done := Some(Raises);
      } else {
        used, bytes := 4, out + [v.value];
      }
    } else if n == '\\' {
      bytes := out + [92];
    } else if n == 'x' && i + 2 < |raw| {
      var run := TakeHex(raw, i + 2);
      assert raw[i..][2..] == raw[i + 2..];
      done := match FromHex(run) case None => Some(Null) case Some(h) => Some(Data(h + out));
    } else if n as int >= 256 {
      done := Some(Raises);
    } else {
      bytes := out + [n as int];
    }
  }

  // ------------------------------------------------------------- what the server writes

  function HexDigit(n: nat): (c: char)
    requires n < 16
    ensures HexValue(c) == n && !IsBlank(c) && c != '\\' && !(c < ' ')
  {
    if n < 10 then '0' + n as char else 'a' + (n - 10) as char
  }

  function HexDigits(b: Bytes): string {
    if b == [] then "" else [HexDigit(b[0] / 16), HexDigit(b[0] % 16)] + HexDigits(b[1..])
  }

  function HexForm(b: Bytes): string {
    "\\x" + HexDigits(b)
  }

  function OctalChar(n: nat): (c: char)
    requires n < 8
    ensures IsOctal(c) && OctalDigit(c) == n
  {
    '0' + n as char
  }

  function EscapeByte(b: byte): string {
    if b == 92 then "\\\\"
    else if 32 <= b <= 126 then [b as char]
    else ['\\', OctalChar(b / 64), OctalChar(b / 8 % 8), OctalChar(b % 8)]
  }

  function EscapeForm(b: Bytes): string {
    if b == [] then "" else EscapeByte(b[0]) + EscapeForm(b[1..])
  }

  lemma {:induction false} FromHexDigits(b: Bytes)
    ensures FromHex(HexDigits(b)) == Some(b)
  {
    if b != [] {
      var h := HexDigits(b);
      assert h[2..] == HexDigits(b[1..]);
      FromHexDigits(b[1..]);
      assert Pair(h[0], h[1]) == b[0];
      assert [b[0]] + b[1..] == b;
    }
  }

  lemma DecodeByte(b: byte, rest: string, out: Bytes)
    ensures DecodeFrom(EscapeByte(b) + rest, out) == DecodeFrom(rest, out + [b])
  {
    var e := EscapeByte(b);
    var s := e + rest;
    if b == 92 {
      assert s[0] == '\\' && s[1] == '\\' && s[2..] == rest;
    } else if 32 <= b <= 126 {
      assert s[0] == b as char != '\\' && s[1..] == rest;
    } else {
      assert s[0] == '\\' && s[1] == e[1] && s[2] == e[2] && s[3] == e[3] && s[4..] == rest;
      OctalDigits(b);
      assert OctalValue(s[1], s[2], s[3]) == Some(b);
    }
  }

  lemma OctalDigits(b: byte)
    ensures 64 * (b / 64) + 8 * (b / 8 % 8) + b % 8 == b
  {
    assert b == 8 * (b / 8) + b % 8;
    assert b / 8 == 8 * (b / 64) + b / 8 % 8;
  }

  lemma {:induction false} DecodeEscaped(b: Bytes, out: Bytes)
    ensures DecodeFrom(EscapeForm(b), out) == Data(out + b)
  {
    if b == [] {
      assert out + b == out;
    } else {
      DecodeByte(b[0], EscapeForm(b[1..]), out);
      DecodeEscaped(b[1..], out + [b[0]]);
      assert out + [b[0]] + b[1..] == out + b;
    }
  }

  /** Both text forms of non-empty bytes decode to those bytes. The empty value survives
      only in hex form; in escape form its text is empty and reads as absent. */
  lemma DecodeInverts(b: Bytes)
    ensures Decode(HexForm(b)) == Data(b)
    ensures Decode(EscapeForm(b)) == if b == [] then Null else Data(b)
  {
    assert HexForm(b)[2..] == HexDigits(b);
    FromHexDigits(b);
    if b != [] {
      var e := EscapeForm(b);
      assert e[0] == EscapeByte(b[0])[0];
      assert e[0] == '\\' ==> e[1] == EscapeByte(b[0])[1];
      DecodeEscaped(b, []);
      assert [] + b == b;
    }
  }

  predicate Graphic(s: string) {
    forall i | 0 <= i < |s| :: ' ' <= s[i]
  }

  lemma {:induction false} FormsAreGraphic(b: Bytes)
    ensures Graphic(HexDigits(b)) && Graphic(EscapeForm(b))
    ensures EscapeForm(b) != "\\N"
  {
    if b != [] {
      FormsAreGraphic(b[1..]);
      var e := EscapeForm(b);
      assert e[0] == EscapeByte(b[0])[0];
      assert e[0] == '\\' ==> e[1] == EscapeByte(b[0])[1] != 'N';
    }
  }

  /** End to end: a bytea value in any column of a dumped row is what decoding the parsed
      column answers, whatever the other columns hold. */
  lemma ByteaSurvivesTheDump(row: seq<Field>, i: nat, b: Bytes)
    requires i < |row| && b != [] && (row[i] == Some(HexForm(b)) || row[i] == Some(EscapeForm(b)))
    ensures var parsed := Parse(EncodeRow(row), "");
            i < |parsed| && parsed[i].Some? && Decode(parsed[i].value) == Data(b)
  {
    FormsAreGraphic(b);
    ColumnSurvives(row, i);
    DecodeInverts(b);
  }

  lemma ColumnSurvives(row: seq<Field>, i: nat)
    requires i < |row| && row[i].Some? && Graphic(row[i].value) && row[i].value != "\\N"
    ensures i < |Parse(EncodeRow(row), "")| && Parse(EncodeRow(row), "")[i] == row[i]
  {
    ParseEncodedRow(row);
    GraphicIsSeen(row[i].value);
    assert (SeenRow(row) + Extra(row))[i] == Seen(row[i]);
  }

  lemma GraphicIsSeen(s: string)
    requires Graphic(s) && s != "\\N"
    ensures Seen(Some(s)) == Some(s)
  {
    assert Munge(s) == s;
  }
}
