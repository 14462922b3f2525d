/** Reading a row of a PostgreSQL COPY text dump. */
module CopyText {

  import opened Common

  type Field = Option<string>

  const BACKSPACE := '\U{08}'
  const FORM_FEED := '\U{0C}'
  const VERTICAL_TAB := '\U{0B}'

  function Close(cur: string): Field {
    if cur == "\\N" then None else Some(cur)
  }

  function Unescape(n: char): char {
    if n == 't' then '\t' else if n == 'n' then '\n' else if n == 'r' then '\r' else n
  }

  /** What the parser makes of the rest of a line when `cur` is the field so far. */
  function Parse(rest: string, cur: string): seq<Field>
    decreases |rest|
  {
    if rest == "" then [Close(cur)]
    else if rest[0] == '\t' then [Close(cur)] + Parse(rest[1..], "")
    else if rest[0] == '\\' && |rest| > 1 then
      if rest[1] == 'N' && cur == "" then
        [None] + Parse(if |rest| > 2 && rest[2] == '\t' then rest[3..] else rest[2..], "")
      else Parse(rest[2..], cur + [Unescape(rest[1])])
    else Parse(rest[1..], cur + [rest[0]])
  }

  /** `parse_tsv`. */
  method ParseTsv(line: string) returns (parts: seq<Field>)
    ensures parts == Parse(line, "")
  {
    parts := [];
    var cur := "";
    var i := 0;
    ghost var rest := line;
    while i < |line|
      invariant 0 <= i <= |line| && rest == line[i..]
      invariant parts + Parse(rest, cur) == Parse(line, "")
    {
      var c := line[i];
      if c == '\t' {
        Shift(parts, Close(cur), Parse(rest[1..], ""));
        parts, cur, i, rest := parts + [Close(cur)], "", i + 1, rest[1..];
        continue;
      }
      if c == '\\' && i + 1 < |line| {
        var n := line[i + 1];
        if n == 'N' && cur == "" {
          ghost var next := if |rest| > 2 && rest[2] == '\t' then rest[3..] else rest[2..];
          Shift(parts, None, Parse(next, ""));
          parts := parts + [None];
          i, rest := i + 2, next;
          if i < |line| && line[i] == '\t' {
            i := i + 1;
          }
          continue;
        }
        if n == 't' {
          cur := cur + ['\t'];
        } else if n == 'n' {
          cur := cur + ['\n'];
        } else if n == 'r' {
          cur := cur + ['\r'];
        } else if n == '\\' {
          cur := cur + ['\\'];
        } else {
          cur := cur + [n];
        }
        i, rest := i + 2, rest[2..];
        continue;
      }
      cur := cur + [c];
      i, rest := i + 1, rest[1..];
    }
    parts := parts + [Close(cur)];
  }

  lemma Shift(parts: seq<Field>, f: Field, more: seq<Field>)
    ensures parts + ([f] + more) == (parts + [f]) + more
  {
  }

  // ------------------------------------------------------------- what COPY TO writes

  function EscapeChar(c: char): string {
    if c == '\\' then "\\\\"
    else if c == '\t' then "\\t"
    else if c == '\n' then "\\n"
    else if c == '\r' then "\\r"
    else if c == BACKSPACE then "\\b"
    else if c == FORM_FEED then "\\f"
    else if c == VERTICAL_TAB then "\\v"
    else [c]
  }

  function Escape(s: string): string {
    if s == "" then "" else EscapeChar(s[0]) + Escape(s[1..])
  }

  function EncodeField(f: Field): string {
    match f
    case None => "\\N"
    case Some(s) => Escape(s)
  }

  function EncodeRow(row: seq<Field>): string {
    if row == [] then ""
    else if |row| == 1 then EncodeField(row[0])
    else EncodeField(row[0]) + "\t" + EncodeRow(row[1..])
  }

  /** The three escapes the parser does not know come back as their letters. */
  function MungeChar(c: char): char {
    if c == BACKSPACE then 'b' else if c == FORM_FEED then 'f' else if c == VERTICAL_TAB then 'v' else c
  }

  function Munge(s: string): (m: string)
    ensures |m| == |s| && forall i | 0 <= i < |s| :: m[i] == MungeChar(s[i])
  {
    if s == "" then "" else [MungeChar(s[0])] + Munge(s[1..])
  }

  function Seen(f: Field): Field {
    match f
    case None => None
    case Some(s) => Close(Munge(s))
  }

  function SeenRow(row: seq<Field>): (r: seq<Field>)
    ensures |r| == |row| && forall i | 0 <= i < |row| :: r[i] == Seen(row[i])
  {
    if row == [] then [] else [Seen(row[0])] + SeenRow(row[1..])
  }

  /** A NULL in the last column makes the parser report one more, empty field. */
  function Extra(row: seq<Field>): seq<Field> {
    if row != [] && row[|row| - 1] == None then [Some("")] else []
  }

  lemma ParseEscapedChar(c: char, tail: string, cur: string)
    ensures Parse(EscapeChar(c) + tail, cur) == Parse(tail, cur + [MungeChar(c)])
  {
    var e := EscapeChar(c);
    var line := e + tail;
    if |e| == 2 {
      assert line[0] == '\\' && line[1] == e[1] != 'N' && line[2..] == tail;
    } else {
      assert line[0] == c && line[1..] == tail;
    }
  }

  lemma {:induction false} ParseEscaped(s: string, rest: string, cur: string)
    ensures Parse(Escape(s) + rest, cur) == Parse(rest, cur + Munge(s))
  {
    if s == "" {
      assert Escape(s) + rest == rest && cur + Munge(s) == cur;
    } else {
      var tail := Escape(s[1..]) + rest;
      assert Escape(s) + rest == EscapeChar(s[0]) + tail;
      ParseEscapedChar(s[0], tail, cur);
      ParseEscaped(s[1..], rest, cur + [MungeChar(s[0])]);
      assert cur + [MungeChar(s[0])] + Munge(s[1..]) == cur + Munge(s);
    }
  }

  lemma ParseColumn(f: Field, rest: string)
    ensures Parse(EncodeField(f) + "\t" + rest, "") == [Seen(f)] + Parse(rest, "")
    ensures Parse(EncodeField(f), "") == [Seen(f)] + if f.None? then [Some("")] else []
  {
    match f {
      case None =>
        assert ("\\N" + "\t" + rest)[3..] == rest;
        assert Parse("\\N", "") == [None] + Parse("", "");
      case Some(s) =>
        assert Escape(s) + "\t" + rest == Escape(s) + ("\t" + rest) && ("\t" + rest)[1..] == rest;
        assert "" + Munge(s) == Munge(s) && Escape(s) + "" == Escape(s);
        ParseEscaped(s, "\t" + rest, "");
        ParseEscaped(s, "", "");
    }
  }

  /** Parsing any encoded row: every field as `Seen`, and the extra field. */
  lemma {:induction false} ParseEncodedRow(row: seq<Field>)
    requires row != []
    ensures Parse(EncodeRow(row), "") == SeenRow(row) + Extra(row)
  {
    if |row| == 1 {
      ParseColumn(row[0], "");
    } else {
      ParseEncodedRow(row[1..]);
      ParseColumn(row[0], EncodeRow(row[1..]));
      RestOfRow(row);
    }
  }

  lemma RestOfRow(row: seq<Field>)
    requires |row| > 1
    ensures [Seen(row[0])] + (SeenRow(row[1..]) + Extra(row[1..])) == SeenRow(row) + Extra(row)
  {
    assert Extra(row[1..]) == Extra(row);
    Regroup([Seen(row[0])], SeenRow(row[1..]), Extra(row));
  }

  lemma Regroup(a: seq<Field>, b: seq<Field>, c: seq<Field>)
    ensures a + (b + c) == (a + b) + c
  {
  }

  predicate Plain(f: Field) {
    f.None? || (f.value != "\\N" && forall c | c in f.value :: c != BACKSPACE && c != FORM_FEED && c != VERTICAL_TAB)
  }

  lemma MungeFixes(s: string)
    ensures Munge(s) == s <==> forall c | c in s :: c != BACKSPACE && c != FORM_FEED && c != VERTICAL_TAB
  {
    if Munge(s) == s {
      forall c | c in s ensures c != BACKSPACE && c != FORM_FEED && c != VERTICAL_TAB {
        var i :| 0 <= i < |s| && s[i] == c;
        assert Munge(s)[i] == MungeChar(c);
      }
    } else {
      var i :| 0 <= i < |s| && Munge(s)[i] != s[i];
      assert s[i] in s;
    }
  }

  /** The round trip holds exactly for rows of plain fields: no backspace, form feed or
      vertical tab, and no field that is the two characters backslash and N. */
  lemma RoundTripExactly(row: seq<Field>)
    requires row != []
    ensures Parse(EncodeRow(row), "") == row + Extra(row) <==> forall i | 0 <= i < |row| :: Plain(row[i])
  {
    ParseEncodedRow(row);
    forall i | 0 <= i < |row| ensures Seen(row[i]) == row[i] <==> Plain(row[i]) {
      if row[i].Some? {
        MungeFixes(row[i].value);
      }
    }
    var a, b := SeenRow(row) + Extra(row), row + Extra(row);
    if a == b {
      forall i | 0 <= i < |row| ensures Plain(row[i]) {
        assert a[i] == Seen(row[i]) && b[i] == row[i];
      }
    } else {
      assert SeenRow(row) != row;
      var i :| 0 <= i < |row| && SeenRow(row)[i] != row[i];
    }
  }
}
