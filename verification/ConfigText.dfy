/** How setting values are written as text and read back: integers, booleans, host lists, and hex
    tokens. Floating-point numbers and timestamps are formatted by a codec that is a parameter. */
module ConfigText {
  import opened Basics
  import opened GoStrings

  // ---------------------------------------------------------------- integers

  function Digit(n: nat): char
    requires n < 10
  {
    '0' + n as char
  }

  function Digits(n: nat): string {
    if n < 10 then [Digit(n)] else Digits(n / 10) + [Digit(n % 10)]
  }

  /** `strconv.Itoa`. */
  function Itoa(n: int): string {
    if n < 0 then "-" + Digits(-n) else Digits(n)
  }

  predicate IsDigits(s: string) {
    s != "" && forall i :: 0 <= i < |s| ==> '0' <= s[i] <= '9'
  }

  function NatOf(s: string): nat
    requires forall i :: 0 <= i < |s| ==> '0' <= s[i] <= '9'
  {
    if s == "" then 0 else 10 * NatOf(s[..|s| - 1]) + (s[|s| - 1] - '0') as nat
  }

  /** `strconv.Atoi`: an optional sign and decimal digits. */
  function Atoi(s: string): Option<int> {
    var signed := s != "" && (s[0] == '-' || s[0] == '+');
    var body := if signed then s[1..] else s;
    if !IsDigits(body) then None
    else
      var n: int := NatOf(body);
      Some(if signed && s[0] == '-' then -n else n)
  }

  lemma {:induction false} DigitsRead(n: nat)
    ensures IsDigits(Digits(n)) && NatOf(Digits(n)) == n
  {
    if n >= 10 {
      DigitsRead(n / 10);
      assert Digits(n)[..|Digits(n)| - 1] == Digits(n / 10);
    }
  }

  lemma ItoaRead(n: nat)
    ensures Atoi(Itoa(n)) == Some(n) && Itoa(n) != "" && '\n' !in Itoa(n)
  {
    DigitsRead(n);
  }

  predicate IsDigit(c: char) { '0' <= c <= '9' }

  /** Printed numbers have no sign, and no zero in front. */
  lemma {:induction false} ItoaPlain(n: nat)
    ensures Itoa(n) != "" && (forall i :: 0 <= i < |Itoa(n)| ==> IsDigit(Itoa(n)[i]))
    ensures n > 0 ==> Itoa(n)[0] != '0'
  {
    if n >= 10 {
      ItoaPlain(n / 10);
      assert Digits(n)[0] == Digits(n / 10)[0];
    }
  }

  /** How decimal text is read: digit by digit, with at most one sign in front and nothing else. */
  lemma AtoiReads(s: string, c: char)
    requires IsDigits(s) && IsDigit(c)
    ensures Atoi([c]) == Some((c - '0') as int)
    ensures Atoi(s).Some? && Atoi(s + [c]) == Some(10 * Atoi(s).value + (c - '0') as int)
  {
    hide Atoi;
    DigitsAtoi(s);
    DigitsAtoi([c]);
    assert [c][..0] == "" && NatOf([c][..0]) == 0;
    var t := s + [c];
    assert t[..|t| - 1] == s && t[|t| - 1] == c;
    DigitsAtoi(t);
  }

  lemma AtoiSigned(s: string)
    requires IsDigits(s)
    ensures Atoi(s).Some? && Atoi("+" + s) == Atoi(s) && Atoi("-" + s) == Some(-Atoi(s).value)
  {
    DigitsAtoi(s);
    hide NatOf;
    var plus, minus := "+" + s, "-" + s;
    assert plus[1..] == s && minus[1..] == s && plus[0] == '+' && minus[0] == '-';
  }

  lemma DigitsAtoi(s: string)
    requires IsDigits(s)
    ensures Atoi(s) == Some(NatOf(s) as int)
  {
    assert '0' <= s[0] <= '9';
  }

  lemma AtoiRefuses(s: string)
    requires !IsDigits(s) && (s != "" && s[0] in "+-" ==> !IsDigits(s[1..]))
    ensures Atoi(s) == None
  {
  }

  // ---------------------------------------------------------------- booleans

  function FormatBool(b: bool): string { if b then "true" else "false" }

  /** `strconv.ParseBool`. */
  function ParseBool(s: string): Option<bool> {
    if s == "1" || s == "t" || s == "T" || s == "true" || s == "TRUE" || s == "True" then Some(true)
    else if s == "0" || s == "f" || s == "F" || s == "false" || s == "FALSE" || s == "False" then Some(false)
    else None
  }

  lemma BoolRead(b: bool)
    ensures ParseBool(FormatBool(b)) == Some(b) && FormatBool(b) != "" && '\n' !in FormatBool(b)
  {
  }

  // ---------------------------------------------------------------- host lists

  /** `strings.Fields`: the maximal runs of characters that are not white space. */
  function Fields(s: string): seq<string>
    decreases |s|
  {
    var t := TrimLeft(s);
    if t == "" then []
    else
      var n := IndexSpace(t);
      if n == 0 then [] else [t[..n]] + Fields(t[n..])
  }

  /** `strings.Join(hosts, " ")`. */
  function JoinSpaces(hosts: seq<string>): string {
    if |hosts| == 0 then "" else if |hosts| == 1 then hosts[0] else hosts[0] + " " + JoinSpaces(hosts[1..])
  }

  predicate IsHost(host: string) { host != "" && NoSpace(host) }

  predicate AreHosts(hosts: seq<string>) { forall i :: 0 <= i < |hosts| ==> IsHost(hosts[i]) }

  lemma {:induction false} IndexSpaceIsToken(s: string)
    ensures NoSpace(s[..IndexSpace(s)])
  {
    if s != "" && !IsSpace(s[0]) {
      IndexSpaceIsToken(s[1..]);
      assert s[..IndexSpace(s)] == [s[0]] + s[1..][..IndexSpace(s[1..])];
    }
  }

  /** A text is its first host and the fields of the rest; white space alone has no fields. */
  lemma {:induction false} FieldsRead(indent: string, host: string, rest: string)
    requires AllSpace(indent)
    ensures Fields(indent) == []
    ensures IsHost(host) && (rest != "" ==> IsSpace(rest[0])) ==> Fields(indent + host + rest) == [host] + Fields(rest)
  {
    TrimLeftSpace(indent);
    if IsHost(host) && (rest != "" ==> IsSpace(rest[0])) {
      var tail := host + rest;
      assert indent + host + rest == indent + tail && tail[0] == host[0];
      TrimLeftIndented(indent, tail);
      IndexSpaceToken(host, rest);
      assert tail[..|host|] == host && tail[|host|..] == rest;
    }
  }

  /** Whatever is split into fields, the fields are nonempty and free of white space. */
  lemma {:induction false} FieldsAreHosts(s: string)
    ensures AreHosts(Fields(s))
    decreases |s|
  {
    var t := TrimLeft(s);
    var n := IndexSpace(t);
    if t != "" && n > 0 {
      IndexSpaceIsToken(t);
      FieldsAreHosts(t[n..]);
    }
  }

  lemma {:induction false} FieldsOfHost(host: string, rest: string)
    requires IsHost(host)
    ensures Fields(host) == [host]
    ensures Fields(host + " " + rest) == [host] + Fields(" " + rest)
  {
    TrimLeftIndented("", host);
    TrimLeftIndented("", host + (" " + rest));
    assert "" + host == host && "" + (host + (" " + rest)) == host + " " + rest;
    IndexSpaceToken(host, "");
    IndexSpaceToken(host, " " + rest);
    assert host + "" == host && host + " " + rest == host + (" " + rest);
    assert host[..|host|] == host && host[|host|..] == "" && Fields("") == [];
    assert (host + (" " + rest))[..|host|] == host && (host + (" " + rest))[|host|..] == " " + rest;
  }

  lemma {:induction false} FieldsSkipSpace(s: string)
    ensures Fields(" " + s) == Fields(s)
  {
    assert (" " + s)[1..] == s;
    assert TrimLeft(" " + s) == TrimLeft(s);
  }

  /** Splitting a joined host list gives the list back. */
  lemma {:induction false} FieldsOfJoin(hosts: seq<string>)
    requires AreHosts(hosts)
    ensures Fields(JoinSpaces(hosts)) == hosts && (hosts != [] ==> JoinSpaces(hosts) != "")
    ensures '\n' !in JoinSpaces(hosts)
  {
    assert IsSpace('\n');
    if |hosts| == 1 {
      FieldsOfHost(hosts[0], "");
    } else if |hosts| > 1 {
      FieldsOfJoin(hosts[1..]);
      FieldsOfHost(hosts[0], JoinSpaces(hosts[1..]));
      FieldsSkipSpace(JoinSpaces(hosts[1..]));
    }
  }

  // ---------------------------------------------------------------- tokens

  function HexDigit(n: nat): char
    requires n < 16
  {
    if n < 10 then '0' + n as char else 'a' + (n - 10) as char
  }

  /** `hex.EncodeToString`. */
  function HexEncode(bytes: seq<nat>): string
    requires forall i :: 0 <= i < |bytes| ==> bytes[i] < 256
  {
    if bytes == [] then ""
    else [HexDigit(bytes[0] / 16), HexDigit(bytes[0] % 16)] + HexEncode(bytes[1..])
  }

  /** Two characters for each byte, the higher half first. */
  lemma {:induction false} HexText(bytes: seq<nat>)
    requires forall i :: 0 <= i < |bytes| ==> bytes[i] < 256
    ensures |HexEncode(bytes)| == 2 * |bytes| && '\n' !in HexEncode(bytes)
    ensures forall i :: 0 <= i < |bytes| ==> HexEncode(bytes)[2 * i] == "0123456789abcdef"[bytes[i] / 16]
    ensures forall i :: 0 <= i < |bytes| ==> HexEncode(bytes)[2 * i + 1] == "0123456789abcdef"[bytes[i] % 16]
  {
    if bytes != [] {
      var rest, all := HexEncode(bytes[1..]), HexEncode(bytes);
      HexText(bytes[1..]);
      HexDigitIs(bytes[0] / 16);
      HexDigitIs(bytes[0] % 16);
      hide HexDigit;
      forall i | 0 <= i < |bytes|
        ensures all[2 * i] == "0123456789abcdef"[bytes[i] / 16] && all[2 * i + 1] == "0123456789abcdef"[bytes[i] % 16] {
        if i > 0 {
          assert all[2 * i] == rest[2 * (i - 1)] && all[2 * i + 1] == rest[2 * (i - 1) + 1] && bytes[i] == bytes[1..][i - 1];
        }
      }
    }
  }

  lemma HexDigitIs(n: nat)
    requires n < 16
    ensures HexDigit(n) == "0123456789abcdef"[n] && HexDigit(n) != '\n'
  {
  }

  // ---------------------------------------------------------------- numbers and timestamps

  /** The library's formatting of floating-point numbers (over reals) and of timestamps. */
  datatype Codec = Codec(
    formatFloat: real -> string, parseFloat: string -> Option<real>,
    formatTime: int -> string, parseTime: string -> Option<int>)
  {
    /** A number whose text is one nonempty line that reads back as the number. */
    predicate Prints(x: real) {
      parseFloat(formatFloat(x)) == Some(x) && formatFloat(x) != "" && '\n' !in formatFloat(x)
    }

    /** A time whose text is one nonempty line that reads back as the time. */
    predicate Tells(t: int) {
      parseTime(formatTime(t)) == Some(t) && formatTime(t) != "" && '\n' !in formatTime(t)
    }
  }

  /** Thousandths in scientific notation, and times as plain numbers. */
  function Thousandths(): Codec {
    Codec(x => if x < 0.0 then "" else Itoa((x * 1000.0).Floor) + "e-3", ReadThousandths,
          t => if t < 0 then "" else Itoa(t), Atoi)
  }

  function ReadThousandths(s: string): Option<real> {
    if |s| < 3 || s[|s| - 3..] != "e-3" then None
    else match Atoi(s[..|s| - 3])
      case Some(n) => Some(n as real / 1000.0)
      case None => None
  }

  /** Some formatting prints every nonnegative number with three decimals and tells every time. */
  lemma ThousandthsPrint(n: nat, t: nat)
    ensures Thousandths().Prints(n as real / 1000.0) && Thousandths().Tells(t)
  {
    ItoaRead(n);
    ItoaRead(t);
    var x := n as real / 1000.0;
    assert (x * 1000.0).Floor == n;
    var text := Itoa(n) + "e-3";
    assert text[|text| - 3..] == "e-3" && text[..|text| - 3] == Itoa(n);
  }
}
