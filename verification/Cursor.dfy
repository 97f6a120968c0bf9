/**
 The fleet's paging cursor as text (`fleet/captures.py`, `format_cursor` and
 `parse_cursor`): `"a:3,b:0"` for an offset per sensor.
 */
module Cursor {
  // ---------- numbers ----------

  predicate IsDigit(c: char) {
    '0' <= c <= '9'
  }

  predicate IsNumber(s: string) {
    s != "" && forall i :: 0 <= i < |s| ==> IsDigit(s[i])
  }

  function Digit(d: nat): (c: char)
    requires d < 10
    ensures IsDigit(c)
  {
    '0' + d as char
  }

  function NumberText(n: nat): (s: string)
    ensures IsNumber(s)
  {
    if n < 10 then [Digit(n)] else NumberText(n / 10) + [Digit(n % 10)]
  }

  function NumberValue(s: string): nat
    requires IsNumber(s)
  {
    var d := s[|s| - 1] as nat - '0' as nat;
    if |s| == 1 then d else 10 * NumberValue(s[..|s| - 1]) + d
  }

  lemma {:induction false} NumberRoundTrip(n: nat)
    ensures NumberValue(NumberText(n)) == n
  {
    if n < 10 {
    } else {
      NumberRoundTrip(n / 10);
      assert NumberText(n)[..|NumberText(n)| - 1] == NumberText(n / 10);
    }
  }

  // ---------- splitting ----------

  /** `s` split at every comma. */
  function Split(s: string): (parts: seq<string>)
    ensures parts != []
  {
    if s == "" then [""]
    else
      var rest := Split(s[1..]);
      if s[0] == ',' then [""] + rest else [[s[0]] + rest[0]] + rest[1..]
  }

  function Join(parts: seq<string>): string {
    if parts == [] then ""
    else if |parts| == 1 then parts[0]
    else parts[0] + "," + Join(parts[1..])
  }

  predicate NoComma(s: string) {
    forall i :: 0 <= i < |s| ==> s[i] != ','
  }

  lemma {:induction false} SplitPart(part: string, rest: string)
    requires NoComma(part)
    ensures Split(part) == [part]
    ensures Split(part + "," + rest) == [part] + Split(rest)
  {
    if part == "" {
      assert part + "," + rest == "," + rest;
      assert ("," + rest)[1..] == rest;
    } else {
      SplitPart(part[1..], rest);
      assert (part + "," + rest)[1..] == part[1..] + "," + rest;
      assert [part[0]] + part[1..] == part;
    }
  }

  lemma {:induction false} SplitJoin(parts: seq<string>)
    requires parts != [] && forall i :: 0 <= i < |parts| ==> NoComma(parts[i])
    ensures Split(Join(parts)) == parts
  {
    if |parts| == 1 {
      SplitPart(parts[0], "");
    } else {
      SplitJoin(parts[1..]);
      SplitPart(parts[0], Join(parts[1..]));
      assert parts == [parts[0]] + parts[1..];
    }
  }

  /** What lies before and behind the last colon; nothing before it when there is none. */
  function LastColon(s: string): (string, string) {
    if s == "" then ("", "")
    else if s[|s| - 1] == ':' then (s[..|s| - 1], "")
    else
      var (a, b) := LastColon(s[..|s| - 1]);
      (a, b + [s[|s| - 1]])
  }

  lemma {:induction false} LastColonOf(id: string, num: string)
    requires forall i :: 0 <= i < |num| ==> num[i] != ':'
    ensures LastColon(id + ":" + num) == (id, num)
    decreases |num|
  {
    var s := id + ":" + num;
    if num == "" {
      assert s == id + ":";
    } else {
      var n := |num| - 1;
      LastColonOf(id, num[..n]);
      assert s[..|s| - 1] == id + ":" + num[..n];
      assert num == num[..n] + [num[n]];
    }
  }

  // ---------- the cursor ----------

  function EntryText(e: (string, nat)): string {
    e.0 + ":" + NumberText(e.1)
  }

  function Texts(cursor: seq<(string, nat)>): (r: seq<string>)
    ensures |r| == |cursor| && forall i :: 0 <= i < |r| ==> r[i] == EntryText(cursor[i])
  {
    seq(|cursor|, i requires 0 <= i < |cursor| => EntryText(cursor[i]))
  }

  /** The cursor's entries in their order, comma separated. */
  function FormatCursor(cursor: seq<(string, nat)>): string {
    Join(Texts(cursor))
  }

  /** One part; malformed ones change nothing. */
  function AddPart(m: map<string, nat>, part: string): map<string, nat> {
    var (id, num) := LastColon(part);
    if id != "" && IsNumber(num) then m[id := NumberValue(num)] else m
  }

  function AddParts(parts: seq<string>): map<string, nat> {
    if parts == [] then map[] else AddPart(AddParts(parts[..|parts| - 1]), parts[|parts| - 1])
  }

  function ParseCursor(raw: string): map<string, nat> {
    AddParts(Split(raw))
  }

  lemma {:induction false} NoColon(s: string)
    requires forall i :: 0 <= i < |s| ==> s[i] != ':'
    ensures LastColon(s) == ("", s)
  {
    if s == "" {
    } else {
      var n := |s| - 1;
      NoColon(s[..n]);
      assert s == s[..n] + [s[n]];
    }
  }

  /** What is no id, colon and digits changes nothing: a part without a colon, without an id
      before the last one, or with anything but digits, or nothing, behind it. */
  lemma {:induction false} MalformedPart(m: map<string, nat>, id: string, num: string, c: char)
    requires forall i :: 0 <= i < |num| ==> num[i] != ':'
    ensures AddPart(m, num) == m
    ensures AddPart(m, ":" + num) == m
    ensures AddPart(m, id + ":") == m
    ensures (exists i :: 0 <= i < |num| && !('0' <= num[i] <= '9')) ==> AddPart(m, id + ":" + num) == m
  {
    NoColon(num);
    LastColonOf("", num);
    assert "" + ":" + num == ":" + num;
    LastColonOf(id, "");
    assert id + ":" + "" == id + ":";
    LastColonOf(id, num);
  }

  /** A digit behind a number counts one, and what is in front of it ten times as much. */
  lemma {:induction false} DigitBehind(s: string, d: nat)
    requires IsNumber(s) && d < 10
    ensures IsNumber(s + [Digit(d)]) && NumberValue(s + [Digit(d)]) == 10 * NumberValue(s) + d
    ensures NumberValue([Digit(d)]) == d && Digit(d) == "0123456789"[d]
  {
    assert (s + [Digit(d)])[..|s|] == s;
  }

  /** Any digits count by their value, also with zeros in front. */
  lemma {:induction false} ZerosInFront(s: string)
    requires IsNumber(s)
    ensures IsNumber("0" + s) && NumberValue("0" + s) == NumberValue(s)
  {
    var z := "0" + s;
    if |s| == 1 {
      assert z[..1] == "0" && z[1] == s[0];
    } else {
      ZerosInFront(s[..|s| - 1]);
      assert z[..|s|] == "0" + s[..|s| - 1] && z[|s|] == s[|s| - 1];
    }
  }

  /** The offsets a list of entries stands for. */
  function Offsets(cursor: seq<(string, nat)>): map<string, nat> {
    if cursor == [] then map[]
    else Offsets(cursor[..|cursor| - 1])[cursor[|cursor| - 1].0 := cursor[|cursor| - 1].1]
  }

  lemma {:induction false} PartRoundTrip(m: map<string, nat>, e: (string, nat))
    requires e.0 != ""
    ensures AddPart(m, EntryText(e)) == m[e.0 := e.1]
  {
    LastColonOf(e.0, NumberText(e.1));
    NumberRoundTrip(e.1);
  }

  lemma {:induction false} PartsRoundTrip(cursor: seq<(string, nat)>)
    requires forall i :: 0 <= i < |cursor| ==> cursor[i].0 != ""
    ensures AddParts(Texts(cursor)) == Offsets(cursor)
  {
    if cursor == [] {
    } else {
      var n := |cursor| - 1;
      PartsRoundTrip(cursor[..n]);
      assert Texts(cursor)[..n] == Texts(cursor[..n]);
      PartRoundTrip(Offsets(cursor[..n]), cursor[n]);
    }
  }

  /** Parsing a formatted cursor gives its offsets back, for ids without commas; an id may
      hold colons. */
  lemma {:induction false} CursorRoundTrip(cursor: seq<(string, nat)>)
    requires forall i :: 0 <= i < |cursor| ==> cursor[i].0 != "" && NoComma(cursor[i].0)
    ensures ParseCursor(FormatCursor(cursor)) == Offsets(cursor)
  {
    if cursor == [] {
      EmptyCursor();
    } else {
      SplitJoin(Texts(cursor));
      PartsRoundTrip(cursor);
    }
  }

  lemma {:induction false} EmptyCursor()
    ensures ParseCursor("") == map[]
  {
    assert Split("") == [""];
    assert [""][..0] == [];
    assert AddParts([""]) == AddPart(AddParts([]), "");
  }
}
