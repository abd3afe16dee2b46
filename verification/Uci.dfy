/** OpenWrt UCI text: the parser and the in-place rewriter.

    A document is a list of sections. `Rewrite` sets options in the text of a document while
    keeping every other line byte for byte; the theorems at the end say what its output parses to
    and when a second rewrite is the identity. */
module Uci {
  import opened Basics
  import opened GoStrings

  datatype Key = Key(typ: string, name: string)

  datatype Section = Section(key: Key, options: map<string, string>, lists: map<string, seq<string>>)

  type Document = seq<Section>

  datatype Update = Update(key: Key, option: string, value: string)

  /** The identity under which an update is remembered as applied. */
  datatype Id = Id(key: Key, option: string)

  function IdOf(u: Update): Id { Id(u.key, u.option) }

  datatype Reason = Malformed | OutsideSection | UnknownKeyword

  datatype ParseResult = Parsed(doc: Document) | Rejected(line: nat, reason: Reason)

  // ---------------------------------------------------------------- quoting and tokens

  function Quote(value: string): string { ReplaceAll(value, "'", "'\\''") }

  function Unquote(s: string): string {
    var body :=
      if |s| >= 2 && ((s[0] == '\'' && s[|s| - 1] == '\'') || (s[0] == '"' && s[|s| - 1] == '"'))
      then s[1..|s| - 1] else s;
    ReplaceAll(body, "'\\''", "'")
  }

  datatype Split = Split(first: string, rest: string, ok: bool)

  function SplitFirst(value: string): Split {
    var index := IndexSpace(value);
    if index == |value| then Split(value, "", false)
    else
      var rest := TrimLeft(value[index..]);
      Split(value[..index], rest, rest != "")
  }

  function SectionKey(rest: string): Key {
    var s := SplitFirst(rest);
    Key(Unquote(s.first), if s.ok then Unquote(s.rest) else "")
  }

  /** What one line says, before it is known whether a section is open. */
  datatype Line =
    | Blank
    | Junk
    | Unknown
    | Header(key: Key)
    | Bare
    | Entry(list: bool, name: string, value: string)

  function Classify(raw: string): Line {
    var line := TrimSpace(raw);
    var s := SplitFirst(line);
    if line == "" || line[0] == '#' then Blank
    else if !s.ok then Junk
    else if s.first == "config" then Header(SectionKey(s.rest))
    else if s.first == "option" || s.first == "list" then
      var kv := SplitFirst(s.rest);
      if !kv.ok then Bare else Entry(s.first == "list", Unquote(kv.first), Unquote(kv.rest))
    else Unknown
  }

  // ---------------------------------------------------------------- parsing

  function WithEntry(s: Section, list: bool, name: string, value: string): Section {
    if list then s.(lists := s.lists[name := (if name in s.lists then s.lists[name] else []) + [value]])
    else s.(options := s.options[name := value])
  }

  function ParseLine(doc: Document, line: Line, number: nat): ParseResult {
    match line
    case Blank => Parsed(doc)
    case Junk => Rejected(number, Malformed)
    case Unknown => Rejected(number, UnknownKeyword)
    case Header(key) => Parsed(doc + [Section(key, map[], map[])])
    case Bare => Rejected(number, if doc == [] then OutsideSection else Malformed)
    case Entry(list, name, value) =>
      if doc == [] then Rejected(number, OutsideSection)
      else Parsed(Front(doc) + [WithEntry(Last(doc), list, name, value)])
  }

  /** Parsing a list of lines: the first offending line, or the document built. */
  function ParseLines(lines: seq<string>): ParseResult {
    if lines == [] then Parsed([])
    else
      var before := ParseLines(Front(lines));
      if before.Rejected? then before else ParseLine(before.doc, Classify(Last(lines)), |lines|)
  }

  function Parse(source: string): ParseResult { ParseLines(SplitLines(source)) }

  lemma {:induction false} ParseLinesRejectedPrefix(lines: seq<string>, n: nat)
    requires n <= |lines| && ParseLines(lines[..n]).Rejected?
    ensures ParseLines(lines) == ParseLines(lines[..n])
  {
    if n == |lines| {
      assert lines[..n] == lines;
    } else {
      assert Front(lines)[..n] == lines[..n];
      ParseLinesRejectedPrefix(Front(lines), n);
    }
  }

  method ParseUCI(src: string) returns (result: ParseResult)
    ensures result == Parse(src)
  {
    var lines := SplitLines(src);
    var doc: Document := [];
    for i := 0 to |lines|
      invariant ParseLines(lines[..i]) == Parsed(doc)
    {
      assert Front(lines[..i + 1]) == lines[..i];
      if ParseLines(lines[..i + 1]).Rejected? {
        ParseLinesRejectedPrefix(lines, i + 1);
      }
      match Classify(lines[i])
      case Blank =>
      case Junk => return Rejected(i + 1, Malformed);
      case Unknown => return Rejected(i + 1, UnknownKeyword);
      case Header(key) => doc := doc + [Section(key, map[], map[])];
      case Bare => return Rejected(i + 1, if |doc| == 0 then OutsideSection else Malformed);
      case Entry(list, name, value) =>
        if |doc| == 0 {
          return Rejected(i + 1, OutsideSection);
        }
        doc := Front(doc) + [WithEntry(Last(doc), list, name, value)];
    }
    assert lines[..|lines|] == lines;
    result := Parsed(doc);
  }

  /** The first section of a given type and name. */
  function FindSection(doc: Document, key: Key): (r: Option<Section>)
    ensures r.None? <==> forall i :: 0 <= i < |doc| ==> doc[i].key != key
    ensures r.Some? ==> r.value in doc && r.value.key == key
  {
    if doc == [] then None
    else if doc[0].key == key then Some(doc[0])
    else FindSection(doc[1..], key)
  }

  // ---------------------------------------------------------------- rewriting

  datatype State = State(result: seq<string>, applied: set<Id>, current: Option<Key>)

  const START := State([], {}, None)

  function Render(indent: string, option: string, value: string): string {
    indent + "option " + option + " '" + Quote(value) + "'"
  }

  /** The updates addressed to one section, in their order. */
  function Pending(us: seq<Update>, key: Key): (r: seq<Update>)
    ensures forall u :: u in r <==> u in us && u.key == key
  {
    if us == [] then []
    else Pending(Front(us), key) + (if Last(us).key == key then [Last(us)] else [])
  }

  /** The first update for an option of a section. */
  function FindUpdate(us: seq<Update>, id: Id): (r: Option<Update>)
    ensures r.Some? ==> r.value in us && IdOf(r.value) == id
    ensures r.None? <==> forall u :: u in us ==> IdOf(u) != id
  {
    if us == [] then None
    else
      var earlier := FindUpdate(Front(us), id);
      if earlier.Some? then earlier
      else if IdOf(Last(us)) == id then Some(Last(us)) else None
  }

  function AddMissing(st: State, u: Update): State {
    if IdOf(u) in st.applied then st
    else st.(result := st.result + [Render("\t", u.option, u.value)], applied := st.applied + {IdOf(u)})
  }

  function AddAllMissing(st: State, us: seq<Update>): State {
    if us == [] then st else AddMissing(AddAllMissing(st, Front(us)), Last(us))
  }

  function FlushMissing(us: seq<Update>, st: State): State {
    match st.current
    case None => st
    case Some(key) => AddAllMissing(st, Pending(us, key))
  }

  function RewriteLine(us: seq<Update>, st: State, raw: string): State {
    match Classify(raw)
    case Header(key) =>
      var f := FlushMissing(us, st);
      State(f.result + [raw], f.applied, Some(key))
    case Entry(false, name, _) =>
      if st.current.Some? && FindUpdate(us, Id(st.current.value, name)).Some? then
        var u := FindUpdate(us, Id(st.current.value, name)).value;
        st.(result := st.result + [Render(Indent(raw), name, u.value)], applied := st.applied + {IdOf(u)})
      else st.(result := st.result + [raw])
    case _ => st.(result := st.result + [raw])
  }

  function RewriteLines(us: seq<Update>, lines: seq<string>): State {
    if lines == [] then START else RewriteLine(us, RewriteLines(us, Front(lines)), Last(lines))
  }

  datatype Tail = Tail(st: State, headed: set<Key>)

  function HeaderLine(key: Key): string {
    "config " + key.typ + (if key.name != "" then " '" + Quote(key.name) + "'" else "")
  }

  function AppendOne(t: Tail, u: Update): Tail {
    if IdOf(u) in t.st.applied then t
    else
      var header := if u.key in t.headed then [] else [HeaderLine(u.key)];
      Tail(AddMissing(t.st.(result := t.st.result + header), u), t.headed + {u.key})
  }

  function AppendNew(us: seq<Update>, st: State): Tail {
    if us == [] then Tail(st, {}) else AppendOne(AppendNew(Front(us), st), Last(us))
  }

  function RewriteAll(us: seq<Update>, lines: seq<string>): State {
    AppendNew(us, FlushMissing(us, RewriteLines(us, lines))).st
  }

  function Rewrite(source: string, us: seq<Update>): string {
    JoinLines(RewriteAll(us, SplitLines(source)).result)
  }

  // The grouping of updates by section that the rewriter looks them up in.
  predicate GroupedUpdates(pending: map<Key, seq<Update>>, us: seq<Update>) {
    && (forall k :: k in pending ==> pending[k] == Pending(us, k))
    && (forall u :: u in us ==> u.key in pending)
  }

  lemma {:induction false} PendingNone(us: seq<Update>, key: Key)
    requires forall u :: u in us ==> u.key != key
    ensures Pending(us, key) == []
  {
    if us != [] {
      forall u | u in Front(us) ensures u in us {}
      assert Last(us) in us;
      PendingNone(Front(us), key);
    }
  }

  lemma {:induction false} PendingKey(us: seq<Update>, key: Key)
    ensures forall u :: u in Pending(us, key) ==> u.key == key
  {
    if us != [] {
      PendingKey(Front(us), key);
    }
  }

  lemma {:induction false} FindUpdateInPending(us: seq<Update>, key: Key, name: string)
    ensures FindUpdate(Pending(us, key), Id(key, name)) == FindUpdate(us, Id(key, name))
  {
    if us != [] {
      FindUpdateInPending(Front(us), key, name);
      var before := Pending(Front(us), key);
      if Last(us).key == key {
        assert Pending(us, key) == before + [Last(us)];
        assert Front(before + [Last(us)]) == before;
      } else {
        assert Pending(us, key) == before;
      }
    }
  }

  lemma FindUpdatePrefix(us: seq<Update>, n: nat, id: Id)
    requires n <= |us| && FindUpdate(us[..n], id).Some?
    ensures FindUpdate(us, id) == FindUpdate(us[..n], id)
  {
    if n < |us| {
      assert Front(us)[..n] == us[..n];
      FindUpdatePrefix(Front(us), n, id);
    } else {
      assert us[..n] == us;
    }
  }

  /** What the rewriter recognises on a line: it looks for the keywords only, and has no notion of
      comments, lists or malformed lines. */
  datatype Seen = SeenHeader(key: Key) | SeenOption(name: string) | SeenOther

  function Recognise(raw: string): Seen {
    var s := SplitFirst(TrimSpace(raw));
    if s.ok && s.first == "config" then SeenHeader(SectionKey(s.rest))
    else if s.ok && s.first == "option" && SplitFirst(s.rest).ok then SeenOption(Unquote(SplitFirst(s.rest).first))
    else SeenOther
  }

  /** The rewriter and the parser agree on which lines open sections and set options. */
  lemma RecogniseAgrees(raw: string)
    ensures Recognise(raw) ==
            match Classify(raw) {
              case Header(key) => SeenHeader(key)
              case Entry(false, name, _) => SeenOption(name)
              case _ => SeenOther
            }
  {
    var line := TrimSpace(raw);
    var s := SplitFirst(line);
    if s.ok && (s.first == "config" || s.first == "option") {
      assert line[0] == s.first[0];
    }
  }

  method Group(us: seq<Update>) returns (pending: map<Key, seq<Update>>)
    ensures GroupedUpdates(pending, us)
  {
    pending := map[];
    for i := 0 to |us|
      invariant GroupedUpdates(pending, us[..i])
    {
      var u := us[i];
      assert us[..i + 1] == us[..i] + [u] && Front(us[..i + 1]) == us[..i];
      if u.key !in pending {
        PendingNone(us[..i], u.key);
      }
      pending := pending[u.key := (if u.key in pending then pending[u.key] else []) + [u]];
    }
    assert us[..|us|] == us;
  }

  /** The first pending update of the open section that names the option. */
  method FindPending(ghost us: seq<Update>, pending: map<Key, seq<Update>>, current: Key, option: string)
    returns (u: Option<Update>)
    requires GroupedUpdates(pending, us)
    ensures u == FindUpdate(us, Id(current, option))
  {
    FindUpdateInPending(us, current, option);
    PendingCovers(pending, us, current);
    var matching := if current in pending then pending[current] else [];
    PendingKey(us, current);
    hide GroupedUpdates, Pending;
    for j := 0 to |matching|
      invariant FindUpdate(matching[..j], Id(current, option)).None?
    {
      assert matching[j] in matching && Front(matching[..j + 1]) == matching[..j];
      if matching[j].option == option {
        FindUpdatePrefix(matching, j + 1, Id(current, option));
        return Some(matching[j]);
      }
    }
    assert matching[..|matching|] == matching;
    u := None;
  }

  method AppendSections(updates: seq<Update>, ghost st: State, result: seq<string>, applied: set<Id>)
    returns (result': seq<string>)
    requires st.result == result && st.applied == applied
    ensures result' == AppendNew(updates, st).st.result
  {
    result' := result;
    var applied' := applied;
    var headed: set<Key> := {};
    for i := 0 to |updates|
      invariant AppendNew(updates[..i], st) == Tail(State(result', applied', st.current), headed)
    {
      var u := updates[i];
      assert Front(updates[..i + 1]) == updates[..i];
      if IdOf(u) in applied' {
        continue;
      }
      if u.key !in headed {
        result' := result' + [HeaderLine(u.key)];
        headed := headed + {u.key};
      }
      result' := result' + [Render("\t", u.option, u.value)];
      applied' := applied' + {IdOf(u)};
    }
    assert updates[..|updates|] == updates;
  }

  method RewriteUCI(source: string, updates: seq<Update>) returns (out: string)
    ensures out == Rewrite(source, updates)
  {
    var pending := Group(updates);
    var lines := SplitLines(source);
    var st := START;
    for i := 0 to |lines|
      invariant RewriteLines(updates, lines[..i]) == st
    {
      var raw := lines[i];
      assert Front(lines[..i + 1]) == lines[..i];
      RecogniseAgrees(raw);
      var line := Recognise(raw);
      if line.SeenHeader? {
        st := FlushPending(updates, pending, st);
        st := State(st.result + [raw], st.applied, Some(line.key));
        continue;
      }
      if st.current.Some? && line.SeenOption? {
        var u := FindPending(updates, pending, st.current.value, line.name);
        if u.Some? {
          st := st.(result := st.result + [Render(Indent(raw), line.name, u.value.value)],
                    applied := st.applied + {IdOf(u.value)});
          continue;
        }
      }
      st := st.(result := st.result + [raw]);
    }
    assert lines[..|lines|] == lines;
    st := FlushPending(updates, pending, st);
    var result := AppendSections(updates, st, st.result, st.applied);
    out := JoinLines(result);
  }

  lemma PendingCovers(pending: map<Key, seq<Update>>, us: seq<Update>, key: Key)
    requires GroupedUpdates(pending, us)
    ensures (if key in pending then pending[key] else []) == Pending(us, key)
  {
    if key !in pending {
      PendingNone(us, key);
    }
  }

  method FlushPending(ghost us: seq<Update>, pending: map<Key, seq<Update>>, st: State) returns (st': State)
    requires GroupedUpdates(pending, us)
    ensures st' == FlushMissing(us, st)
  {
    st' := st;
    if st.current.None? {
      return;
    }
    var key := st.current.value;
    var missing := if key in pending then pending[key] else [];
    PendingCovers(pending, us, key);
    for i := 0 to |missing|
      invariant AddAllMissing(st, missing[..i]) == st'
    {
      assert Front(missing[..i + 1]) == missing[..i];
      var u := missing[i];
      if IdOf(u) !in st'.applied {
        st' := st'.(result := st'.result + [Render("\t", u.option, u.value)], applied := st'.applied + {IdOf(u)});
      }
    }
    assert missing[..|missing|] == missing;
  }
}
