/** The theorems about rewriting UCI text. */
module UciTheorems {
  import opened Basics
  import opened GoStrings
  import opened Uci
  import opened UciLines
  import opened UciRewriting
  import opened UciStability
  import opened UciMeaning

  // ---------------------------------------------------------------- lines and text

  predicate OneLine(line: string) { '\n' !in line }

  predicate AllOneLine(lines: seq<string>) {
    forall i :: 0 <= i < |lines| ==> OneLine(lines[i])
  }

  lemma SpaceOrNotNewline(option: string)
    requires NoSpace(option)
    ensures OneLine(option)
  {
    assert IsSpace('\n');
  }

  lemma RenderOneLine(indent: string, u: Update)
    requires Writable(u) && OneLine(indent)
    ensures OneLine(Render(indent, u.option, u.value))
  {
    SpaceOrNotNewline(u.option);
    QuoteNoNewline(u.value);
  }

  lemma HeaderOneLine(u: Update)
    requires Writable(u)
    ensures OneLine(HeaderLine(u.key))
  {
    SpaceOrNotNewline(u.key.typ);
    QuoteNoNewline(u.key.name);
  }

  lemma {:induction false} AddAllOneLine(st: State, us: seq<Update>)
    requires AllOneLine(st.result) && forall u :: u in us ==> Writable(u)
    ensures AllOneLine(AddAllMissing(st, us).result) && |AddAllMissing(st, us).result| >= |st.result|
  {
    if us != [] {
      AddAllOneLine(st, Front(us));
      assert Last(us) in us;
      RenderOneLine("\t", Last(us));
    }
  }

  lemma FlushOneLine(us: seq<Update>, st: State)
    requires Proper(us) && AllOneLine(st.result)
    ensures AllOneLine(FlushMissing(us, st).result) && |FlushMissing(us, st).result| >= |st.result|
  {
    if st.current.Some? {
      AddAllOneLine(st, Pending(us, st.current.value));
    }
  }

  lemma {:induction false} LinesOneLine(us: seq<Update>, lines: seq<string>)
    requires Proper(us) && AllOneLine(lines)
    ensures AllOneLine(RewriteLines(us, lines).result) && |RewriteLines(us, lines).result| >= |lines|
  {
    if lines != [] {
      LinesOneLine(us, Front(lines));
      var st, raw := RewriteLines(us, Front(lines)), Last(lines);
      FlushOneLine(us, st);
      match Classify(raw)
      case Entry(false, name, _) =>
        if st.current.Some? && FindUpdate(us, Id(st.current.value, name)).Some? {
          RenderOneLine(Indent(raw), FindUpdate(us, Id(st.current.value, name)).value);
        }
      case _ =>
    }
  }

  lemma {:induction false} AppendOneLine(us: seq<Update>, st: State)
    requires AllOneLine(st.result) && forall u :: u in us ==> Writable(u)
    ensures AllOneLine(AppendNew(us, st).st.result) && |AppendNew(us, st).st.result| >= |st.result|
  {
    if us != [] {
      AppendOneLine(Front(us), st);
      assert Last(us) in us;
      HeaderOneLine(Last(us));
      RenderOneLine("\t", Last(us));
    }
  }

  /** Splitting the rewritten text gives back the lines it was joined from. */
  lemma RewriteSplit(source: string, us: seq<Update>)
    requires Proper(us)
    ensures SplitLines(Rewrite(source, us)) == RewriteAll(us, SplitLines(source)).result
  {
    var lines := SplitLines(source);
    LinesOneLine(us, lines);
    FlushOneLine(us, RewriteLines(us, lines));
    AppendOneLine(us, FlushMissing(us, RewriteLines(us, lines)));
    SplitJoin(RewriteAll(us, lines).result);
  }

  // ---------------------------------------------------------------- the theorems

  /** For every accepted text, the rewritten text is accepted too, and it is the old document with
      exactly those options set if and only if the updates of each absent section stand together. */
  lemma RewriteCorrect(source: string, us: seq<Update>)
    requires Parse(source).Parsed? && Proper(us)
    ensures Parse(Rewrite(source, us)).Parsed?
    ensures Parse(Rewrite(source, us)).doc == Expected(us, Parse(source).doc)
            <==> Grouped(us, KeysOf(Parse(source).doc))
  {
    var doc := Parse(source).doc;
    RewriteSplit(source, us);
    RewrittenParse(us, SplitLines(source));
    PlacedExact(us, KeysOf(doc));
    var placed, news := Placed(us, KeysOf(doc)), NewSections(us, KeysOf(doc));
    if Closed(us, doc) + placed == Closed(us, doc) + news {
      assert placed == (Closed(us, doc) + placed)[|Closed(us, doc)|..];
      assert news == (Closed(us, doc) + news)[|Closed(us, doc)|..];
    }
  }

  /** Rewriting again with the same updates changes no byte, whatever the text was. */
  lemma RewriteIdempotent(source: string, us: seq<Update>)
    requires Proper(us) && Grouped(us, HeaderKeys(SplitLines(source)))
    ensures Rewrite(Rewrite(source, us), us) == Rewrite(source, us)
  {
    RewriteSplit(source, us);
    AllStable(us, SplitLines(source));
  }

  lemma {:induction false} ClosedAt(us: seq<Update>, doc: Document, i: nat)
    requires i < |doc|
    ensures |Closed(us, doc)| == |doc|
    ensures Closed(us, doc)[i] ==
            if doc[i].key in KeysOf(doc[..i]) then Overwritten(us, doc[i]) else Filled(us, doc[i])
  {
    if i < |doc| - 1 {
      ClosedAt(us, Front(doc), i);
      assert Front(doc)[..i] == doc[..i];
    } else if i > 0 {
      ClosedAt(us, Front(doc), i - 1);
    }
  }

  /** A stray update leaves an option missing from the first section of its key. */
  lemma StrayMissing(us: seq<Update>, doc: Document)
    requires Distinct(us) && !Grouped(us, KeysOf(doc))
    ensures var doc' := Closed(us, doc) + Placed(us, KeysOf(doc)); Closed(us, doc') != doc'
  {
    var present := KeysOf(doc);
    var n, p := PlacedUngrouped(us, present);
    var doc' := Closed(us, doc) + Placed(us, present);
    var at := |doc| + p;
    ClosedLength(us, doc);
    ClosedAt(us, doc', at);
    PlacedKeys(us, present);
    forall j | 0 <= j < at ensures doc'[j].key != us[n].key {
      if j < |doc| {
        ClosedAt(us, doc, j);
        assert doc[j] in doc;
      }
    }
    assert us[n].key !in KeysOf(doc'[..at]);
    assert us[n] in us;
    OptionsOf(us, us[n]);
    assert us[n].option in Closed(us, doc')[at].options;
  }

  /** When an absent section's updates do not stand together, the text is not stable: a second rewrite
      adds what the first one put in the wrong section. */
  lemma RewriteUngrouped(source: string, us: seq<Update>)
    requires Parse(source).Parsed? && Proper(us) && !Grouped(us, KeysOf(Parse(source).doc))
    ensures Rewrite(Rewrite(source, us), us) != Rewrite(source, us)
  {
    var doc, once := Parse(source).doc, Rewrite(source, us);
    RewriteSplit(source, us);
    RewrittenParse(us, SplitLines(source));
    RewriteSplit(once, us);
    RewrittenParse(us, SplitLines(once));
    StrayMissing(us, doc);
    var doc' := Parse(once).doc;
    ClosedLength(us, doc');
    assert (Closed(us, doc') + Placed(us, KeysOf(doc')))[..|doc'|] == Closed(us, doc');
    assert doc'[..|doc'|] == doc';
  }

  lemma ClosedLength(us: seq<Update>, doc: Document)
    ensures |Closed(us, doc)| == |doc|
  {
    if doc != [] {
      ClosedAt(us, doc, 0);
    }
  }

  /** Both halves together: on accepted texts a rewrite is stable exactly when the updates are grouped. */
  lemma RewriteStableIffGrouped(source: string, us: seq<Update>)
    requires Parse(source).Parsed? && Proper(us)
    ensures Rewrite(Rewrite(source, us), us) == Rewrite(source, us) <==> Grouped(us, KeysOf(Parse(source).doc))
  {
    KeysAreHeaders(SplitLines(source));
    if Grouped(us, KeysOf(Parse(source).doc)) {
      RewriteIdempotent(source, us);
    } else {
      RewriteUngrouped(source, us);
    }
  }

  lemma {:induction false} NoUpdates(lines: seq<string>)
    ensures RewriteLines([], lines).result == lines
  {
    hide RewriteLine;
    if lines != [] {
      NoUpdates(Front(lines));
      NoUpdatesLine(RewriteLines([], Front(lines)), Last(lines));
      assert lines == Front(lines) + [Last(lines)];
    }
  }

  lemma NoUpdatesLine(st: State, raw: string)
    ensures RewriteLine([], st, raw).result == st.result + [raw]
  {
    hide Classify;
  }

  /** Without updates the text comes back byte for byte, whatever it holds. */
  lemma RewriteNothing(source: string)
    ensures Rewrite(source, []) == source
  {
    NoUpdates(SplitLines(source));
    JoinSplit(source);
  }

  /** Two sections, the first of which is named again after the second. */
  const STRAY: seq<Update> := [
    Update(Key("a", ""), "x", "1"), Update(Key("b", ""), "x", "2"), Update(Key("a", ""), "y", "3")]

  /** In an empty file this proper list of updates opens one section twice, and so a second rewrite changes
      the text again. */
  lemma StrayExample()
    ensures Proper(STRAY) && !Grouped(STRAY, {}) && Parse("") == Parsed([])
    ensures Parse(Rewrite("", STRAY)).Parsed? && Parse(Rewrite("", STRAY)).doc != Expected(STRAY, [])
    ensures Rewrite(Rewrite("", STRAY), STRAY) != Rewrite("", STRAY)
  {
    assert SplitLines("") == [""] && Classify("") == Blank;
    StrayProper();
    assert KeysOf([]) == {};
    RewriteCorrect("", STRAY);
    RewriteUngrouped("", STRAY);
  }

  lemma LetterIsPlain(c: char)
    requires 'a' <= c <= 'z'
    ensures PlainName([c])
  {
    var s := [c];
    assert s[0] == c && s[1..] == "";
    assert ReplaceAll(s, "'\\''", "'") == s by {
      assert !("'\\''" <= s);
    }
  }

  lemma StrayProper()
    ensures Proper(STRAY) && !Grouped(STRAY, {})
  {
    LetterIsPlain('a');
    LetterIsPlain('b');
    LetterIsPlain('x');
    LetterIsPlain('y');
    StrayDistinct();
    assert STRAY[0].key.typ[0] != STRAY[1].key.typ[0];
    StrayUngrouped(STRAY[0], STRAY[1], STRAY[2]);
    assert STRAY == [STRAY[0], STRAY[1], STRAY[2]];
    hide PlainName;
  }

  lemma StrayDistinct()
    ensures Distinct(STRAY)
  {
    var us := STRAY;
    assert us[0].key.typ[0] != us[1].key.typ[0] && us[1].key.typ[0] != us[2].key.typ[0];
    assert us[0].option[0] != us[2].option[0];
  }

  lemma StrayUngrouped(u: Update, v: Update, w: Update)
    requires w.key == u.key != v.key
    ensures !Grouped([u, v, w], {})
  {
    var us := [u, v, w];
    assert us[..1] == [u] && us[..2] == [u, v];
    assert Front([u]) == [] && Front([u, v]) == [u];
    assert AbsentKeys([], {}) == [];
    assert AbsentKeys([u], {}) == [u.key];
    assert AbsentKeys([u, v], {}) == [u.key, v.key];
    assert !Follows(us, {}, 2);
  }

  // ---------------------------------------------------------------- reading the result

  /** The options a reader finds under a key: those of the first such section, or none. */
  function OptionsAt(doc: Document, key: Key): map<string, string> {
    match FindSection(doc, key) case Some(s) => s.options case None => map[]
  }

  lemma {:induction false} FindAt(doc: Document, key: Key, i: nat)
    requires i < |doc| && doc[i].key == key && forall j :: 0 <= j < i ==> doc[j].key != key
    ensures FindSection(doc, key) == Some(doc[i])
  {
    if i > 0 {
      FindAt(doc[1..], key, i - 1);
    }
  }

  lemma FirstWithKey(doc: Document, key: Key) returns (i: nat)
    requires key in KeysOf(doc)
    ensures i < |doc| && doc[i].key == key && forall j :: 0 <= j < i ==> doc[j].key != key
  {
    i := 0;
    var k :| 0 <= k < |doc| && doc[k].key == key;
    while doc[i].key != key
      invariant i <= k && forall j :: 0 <= j < i ==> doc[j].key != key
      decreases k - i
    {
      i := i + 1;
    }
  }

  lemma NotNamed(us: seq<Update>, key: Key, option: string)
    requires option !in OptionNames(us, key)
    ensures FindUpdate(us, Id(key, option)).None?
  {
    forall u | u in us ensures IdOf(u) != Id(key, option) {
      if u.key == key {
        assert u.option in OptionNames(us, key);
      }
    }
  }

  lemma ExpectedKey(us: seq<Update>, doc: Document, i: nat)
    requires i < |Expected(us, doc)|
    ensures |Closed(us, doc)| == |doc|
    ensures Expected(us, doc)[i].key ==
            if i < |doc| then doc[i].key else AbsentKeys(us, KeysOf(doc))[i - |doc|]
  {
    ClosedLength(us, doc);
    if i < |doc| {
      ClosedAt(us, doc, i);
    }
  }

  lemma ExpectedReadPresent(us: seq<Update>, doc: Document, key: Key)
    requires key in KeysOf(doc)
    ensures OptionsAt(Expected(us, doc), key) == OptionsAt(doc, key) + NewOptions(us, key)
  {
    var i := FirstWithKey(doc, key);
    FindAt(doc, key, i);
    ClosedAt(us, doc, i);
    forall j | 0 <= j < i ensures Expected(us, doc)[j].key != key {
      ExpectedKey(us, doc, j);
    }
    assert doc[i].key !in KeysOf(doc[..i]);
    FindAt(Expected(us, doc), key, i);
    FilledOptions(us, doc[i]);
  }

  lemma ExpectedReadAbsent(us: seq<Update>, doc: Document, key: Key)
    requires key !in KeysOf(doc)
    ensures OptionsAt(Expected(us, doc), key) == NewOptions(us, key) && OptionsAt(doc, key) == map[]
  {
    var keys, result := AbsentKeys(us, KeysOf(doc)), Expected(us, doc);
    AbsentKeysCover(us, KeysOf(doc), key);
    assert forall j :: 0 <= j < |doc| ==> doc[j] in doc;
    if key in keys {
      var p :| 0 <= p < |keys| && keys[p] == key;
      ClosedLength(us, doc);
      forall j | 0 <= j < |doc| + p ensures result[j].key != key {
        ExpectedKey(us, doc, j);
      }
      FindAt(result, key, |doc| + p);
    } else {
      forall j | 0 <= j < |result| ensures result[j].key != key {
        ExpectedKey(us, doc, j);
      }
      assert OptionNames(us, key) == {};
    }
  }

  /** Reading any section of the intended document: the old options with the new ones on top. */
  lemma ExpectedRead(us: seq<Update>, doc: Document, key: Key)
    ensures OptionsAt(Expected(us, doc), key) == OptionsAt(doc, key) + NewOptions(us, key)
  {
    if key in KeysOf(doc) {
      ExpectedReadPresent(us, doc, key);
    } else {
      ExpectedReadAbsent(us, doc, key);
    }
  }

  lemma FilledOptions(us: seq<Update>, s: Section)
    ensures Filled(us, s).options == s.options + NewOptions(us, s.key)
  {
    var written, named := Overwritten(us, s).options, NewOptions(us, s.key);
    forall o | o in s.options && o !in named ensures written[o] == s.options[o] {
      NotNamed(us, s.key, o);
    }
    hide Overwritten, NewOptions;
    OverriddenAlike(written, s.options, named);
  }

  lemma OverriddenAlike(a: map<string, string>, b: map<string, string>, over: map<string, string>)
    requires a.Keys == b.Keys && forall o :: o in a && o !in over ==> a[o] == b[o]
    ensures a + over == b + over
  {
  }

  /** Nothing else is touched: sections keep their order, keys and lists, and every option that no
      update names keeps its value. */
  lemma ExpectedKeeps(us: seq<Update>, doc: Document, i: nat)
    requires i < |doc|
    ensures i < |Expected(us, doc)| && Expected(us, doc)[i].key == doc[i].key
    ensures Expected(us, doc)[i].lists == doc[i].lists
    ensures forall o :: o !in OptionNames(us, doc[i].key) ==>
              && (o in Expected(us, doc)[i].options <==> o in doc[i].options)
              && (o in doc[i].options ==> Expected(us, doc)[i].options[o] == doc[i].options[o])
    ensures forall o :: o in OptionNames(us, doc[i].key) && o in doc[i].options ==>
              o in Expected(us, doc)[i].options &&
              Expected(us, doc)[i].options[o] == ValueOf(us, Id(doc[i].key, o), "")
  {
    ClosedAt(us, doc, i);
    forall o | o !in OptionNames(us, doc[i].key)
      ensures FindUpdate(us, Id(doc[i].key, o)).None?
    {
      NotNamed(us, doc[i].key, o);
    }
  }

  // ---------------------------------------------------------------- the bytes that are kept

  /** The lines of the source that do not set an option named by an update. */
  function KeptLines(us: seq<Update>, lines: seq<string>): seq<string> {
    if lines == [] then []
    else
      KeptLines(us, Front(lines)) + if Replaced(us, RewriteLines(us, Front(lines)), Last(lines)) then [] else [Last(lines)]
  }

  predicate Replaced(us: seq<Update>, st: State, raw: string) {
    match Classify(raw)
    case Entry(false, name, _) => st.current.Some? && FindUpdate(us, Id(st.current.value, name)).Some?
    case _ => false
  }

  /** `a` is obtained from `b` by leaving out some lines. */
  predicate Within(a: seq<string>, b: seq<string>) {
    a == [] || (b != [] && (if Last(a) == Last(b) then Within(Front(a), Front(b)) else Within(a, Front(b))))
  }

  lemma {:induction false} WithinWeaken(a: seq<string>, b: seq<string>)
    requires a != [] && Within(a, b)
    ensures Within(Front(a), b)
    decreases |a| + |b|, 0
  {
    if Last(a) == Last(b) {
      WithinSnoc(Front(a), Front(b), Last(b));
      assert b == Front(b) + [Last(b)];
    } else {
      WithinWeaken(a, Front(b));
      WithinSnoc(Front(a), Front(b), Last(b));
      assert b == Front(b) + [Last(b)];
    }
  }

  lemma {:induction false} WithinSnoc(a: seq<string>, b: seq<string>, line: string)
    requires Within(a, b)
    ensures Within(a, b + [line])
    decreases |a| + |b|, 1
  {
    if a != [] {
      assert Front(b + [line]) == b;
      if Last(a) == line {
        WithinWeaken(a, b);
      }
    }
  }

  lemma {:induction false} AddAllWithin(a: seq<string>, st: State, us: seq<Update>)
    requires Within(a, st.result)
    ensures Within(a, AddAllMissing(st, us).result)
  {
    if us != [] {
      AddAllWithin(a, st, Front(us));
      WithinSnoc(a, AddAllMissing(st, Front(us)).result, Render("\t", Last(us).option, Last(us).value));
    }
  }

  lemma FlushWithin(a: seq<string>, us: seq<Update>, st: State)
    requires Within(a, st.result)
    ensures Within(a, FlushMissing(us, st).result)
  {
    if st.current.Some? {
      AddAllWithin(a, st, Pending(us, st.current.value));
    }
  }

  lemma {:induction false} LinesWithin(us: seq<Update>, lines: seq<string>)
    ensures Within(KeptLines(us, lines), RewriteLines(us, lines).result)
  {
    if lines != [] {
      LinesWithin(us, Front(lines));
      var st, kept, raw := RewriteLines(us, Front(lines)), KeptLines(us, Front(lines)), Last(lines);
      LineWithin(us, st, kept, raw);
      hide RewriteLine, Classify, Within;
    }
  }

  lemma LineWithin(us: seq<Update>, st: State, kept: seq<string>, raw: string)
    requires Within(kept, st.result)
    ensures Within(kept + if Replaced(us, st, raw) then [] else [raw], RewriteLine(us, st, raw).result)
  {
    hide Classify, Within, FlushMissing, Render;
    FlushWithin(kept, us, st);
    match Classify(raw)
    case Entry(false, name, _) =>
      if st.current.Some? && FindUpdate(us, Id(st.current.value, name)).Some? {
        WithinSnoc(kept, st.result, Render(Indent(raw), name, FindUpdate(us, Id(st.current.value, name)).value.value));
        assert kept + [] == kept;
      } else {
        WithinBoth(kept, st.result, raw);
      }
    case Header(_) => WithinBoth(kept, FlushMissing(us, st).result, raw);
    case _ => WithinBoth(kept, st.result, raw);
  }

  lemma WithinBoth(a: seq<string>, b: seq<string>, line: string)
    requires Within(a, b)
    ensures Within(a + [line], b + [line])
  {
    assert Front(a + [line]) == a && Front(b + [line]) == b;
  }

  lemma {:induction false} AppendWithin(a: seq<string>, us: seq<Update>, st: State)
    requires Within(a, st.result)
    ensures Within(a, AppendNew(us, st).st.result)
  {
    if us != [] {
      AppendWithin(a, Front(us), st);
      var r, u := AppendNew(Front(us), st).st.result, Last(us);
      WithinSnoc(a, r, HeaderLine(u.key));
      WithinSnoc(a, r, Render("\t", u.option, u.value));
      WithinSnoc(a, r + [HeaderLine(u.key)], Render("\t", u.option, u.value));
      assert r + [] == r;
    }
  }

  /** Every source line that is not the setting of an updated option survives byte for byte, in order. */
  lemma RewriteKeepsLines(source: string, us: seq<Update>)
    requires Proper(us)
    ensures Within(KeptLines(us, SplitLines(source)), SplitLines(Rewrite(source, us)))
  {
    var lines := SplitLines(source);
    RewriteSplit(source, us);
    LinesWithin(us, lines);
    FlushWithin(KeptLines(us, lines), us, RewriteLines(us, lines));
    AppendWithin(KeptLines(us, lines), us, FlushMissing(us, RewriteLines(us, lines)));
  }
}
