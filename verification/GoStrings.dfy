/** The parts of Go's `strings` and `unicode` packages that the UCI code relies on,
    over sequences of Unicode characters. */
module GoStrings {

  /** `unicode.IsSpace`: the characters with the White_Space property. */
  predicate IsSpace(c: char) {
    var n := c as int;
    || 0x09 <= n <= 0x0D || n == 0x20 || n == 0x85 || n == 0xA0 || n == 0x1680
    || 0x2000 <= n <= 0x200A || n == 0x2028 || n == 0x2029 || n == 0x202F || n == 0x205F || n == 0x3000
  }

  predicate NoSpace(s: string) {
    forall i :: 0 <= i < |s| ==> !IsSpace(s[i])
  }

  predicate AllSpace(s: string) {
    forall i :: 0 <= i < |s| ==> IsSpace(s[i])
  }

  function TrimLeft(s: string): (r: string)
    ensures |r| <= |s|
  {
    if s != "" && IsSpace(s[0]) then TrimLeft(s[1..]) else s
  }

  function TrimRight(s: string): string {
    if s != "" && IsSpace(s[|s| - 1]) then TrimRight(s[..|s| - 1]) else s
  }

  function TrimSpace(s: string): string {
    TrimRight(TrimLeft(s))
  }

  /** The leading white space that TrimLeft removes. */
  function Indent(s: string): string {
    s[..|s| - |TrimLeft(s)|]
  }

  /** `strings.IndexFunc(s, unicode.IsSpace)`, with |s| standing for "no such index". */
  function IndexSpace(s: string): (n: nat)
    ensures n <= |s|
  {
    if s == "" || IsSpace(s[0]) then 0 else 1 + IndexSpace(s[1..])
  }

  /** `strings.Split(s, "\n")`. */
  function SplitLines(s: string): (r: seq<string>)
    ensures |r| >= 1
    ensures forall i :: 0 <= i < |r| ==> '\n' !in r[i]
  {
    if s == "" then [""]
    else
      var rest := SplitLines(s[1..]);
      if s[0] == '\n' then [""] + rest else [[s[0]] + rest[0]] + rest[1..]
  }

  /** `strings.Join(lines, "\n")`. */
  function JoinLines(lines: seq<string>): string {
    if |lines| == 0 then ""
    else if |lines| == 1 then lines[0]
    else lines[0] + "\n" + JoinLines(lines[1..])
  }

  /** `strings.ReplaceAll(s, old, new)` for a nonempty old: leftmost, non-overlapping. */
  function ReplaceAll(s: string, old_: string, new_: string): string
    requires old_ != ""
    decreases |s|
  {
    if s == "" then ""
    else if old_ <= s then new_ + ReplaceAll(s[|old_|..], old_, new_)
    else [s[0]] + ReplaceAll(s[1..], old_, new_)
  }

  lemma {:induction false} TrimLeftIndented(indent: string, body: string)
    requires AllSpace(indent) && body != "" && !IsSpace(body[0])
    ensures TrimLeft(indent + body) == body
    ensures Indent(indent + body) == indent
  {
    if indent == "" {
      assert indent + body == body;
    } else {
      TrimLeftIndented(indent[1..], body);
      assert (indent + body)[1..] == indent[1..] + body;
    }
    assert (indent + body)[..|indent|] == indent;
  }

  lemma {:induction false} TrimLeftSpace(s: string)
    requires AllSpace(s)
    ensures TrimLeft(s) == ""
  {
    if s != "" {
      TrimLeftSpace(s[1..]);
    }
  }

  lemma {:induction false} IndexSpaceToken(token: string, rest: string)
    requires NoSpace(token) && (rest != "" ==> IsSpace(rest[0]))
    ensures IndexSpace(token + rest) == |token|
  {
    if token == "" {
      assert token + rest == rest;
    } else {
      assert (token + rest)[1..] == token[1..] + rest;
      IndexSpaceToken(token[1..], rest);
    }
  }

  lemma {:induction false} SplitLinesPrepend(line: string, s: string)
    requires '\n' !in line
    ensures SplitLines(line) == [line]
    ensures SplitLines(line + "\n" + s) == [line] + SplitLines(s)
  {
    if line == "" {
      assert (line + "\n" + s)[1..] == s;
    } else {
      SplitLinesPrepend(line[1..], s);
      assert (line + "\n" + s)[1..] == line[1..] + "\n" + s;
      assert [line[0]] + line[1..] == line;
    }
  }

  /** Joining undoes splitting, for every text. */
  lemma {:induction false} JoinSplit(s: string)
    ensures JoinLines(SplitLines(s)) == s
  {
    if s != "" {
      var rest := SplitLines(s[1..]);
      JoinSplit(s[1..]);
      if s[0] == '\n' {
        assert ([""] + rest)[1..] == rest;
      } else {
        var lines := [[s[0]] + rest[0]] + rest[1..];
        assert lines[1..] == rest[1..];
        assert JoinLines(lines) == [s[0]] + JoinLines(rest);
      }
      assert s == [s[0]] + s[1..];
    }
  }

  /** Splitting undoes joining, for lines without a newline. */
  lemma {:induction false} SplitJoin(lines: seq<string>)
    requires |lines| >= 1 && forall i :: 0 <= i < |lines| ==> '\n' !in lines[i]
    ensures SplitLines(JoinLines(lines)) == lines
  {
    if |lines| == 1 {
      SplitLinesPrepend(lines[0], "");
    } else {
      SplitJoin(lines[1..]);
      SplitLinesPrepend(lines[0], JoinLines(lines[1..]));
    }
  }
}
