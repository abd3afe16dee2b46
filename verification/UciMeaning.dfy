/** What the rewritten lines parse to, section by section. */
module UciMeaning {
  import opened Basics
  import opened GoStrings
  import opened Uci
  import opened UciLines
  import opened UciRewriting

  /** The document while its last section is still open: only what is written so far is set. */
  function Live(us: seq<Update>, doc: Document): Document {
    if doc == [] then [] else Closed(us, Front(doc)) + [Overwritten(us, Last(doc))]
  }

  /** What the rewriter's state says about the document read so far. */
  ghost predicate Mirrors(us: seq<Update>, doc: Document, st: State) {
    && ParseLines(st.result) == Parsed(Live(us, doc))
    && st.current == (if doc == [] then None else Some(Last(doc).key))
    && forall u :: u in us ==>
         (IdOf(u) in st.applied <==>
          doc != [] && (u.key in KeysOf(Front(doc)) || (u.key == Last(doc).key && u.option in Last(doc).options)))
  }

  lemma KeysOfAppend(doc: Document, s: Section)
    ensures KeysOf(doc + [s]) == KeysOf(doc) + {s.key}
  {
    assert forall t :: t in doc + [s] <==> t in doc || t == s;
  }

  /** The open section once the first updates waiting for it have been flushed. */
  function Flushed(us: seq<Update>, doc: Document, pending: seq<Update>): Section
    requires doc != []
  {
    var s := Overwritten(us, Last(doc));
    if s.key in KeysOf(Front(doc)) then s
    else s.(options := s.options + NewOptions(pending, s.key))
  }

  lemma AddMissingParsed(st: State, closed: Document, s: Section, u: Update)
    requires Writable(u) && IdOf(u) !in st.applied && ParseLines(st.result) == Parsed(closed + [s])
    ensures ParseLines(AddMissing(st, u).result) == Parsed(closed + [s.(options := s.options[u.option := u.value])])
  {
    RenderedOption("\t", u.option, u.value);
    ParseAppend(st.result, Render("\t", u.option, u.value));
    assert Front(closed + [s]) == closed;
  }

  lemma FlushedStep(us: seq<Update>, doc: Document, pending: seq<Update>, n: nat)
    requires Proper(us) && doc != [] && n < |pending| && Distinct(pending)
    requires pending[n] in us && pending[n].key == Last(doc).key
    ensures var u := pending[n];
            var before, after := Flushed(us, doc, pending[..n]), Flushed(us, doc, pending[..n + 1]);
            if u.key in KeysOf(Front(doc)) then before == after
            else
              && after == before.(options := before.options[u.option := u.value])
              && (u.option in Last(doc).options ==> before == after)
  {
    var u, old_ := pending[n], Overwritten(us, Last(doc)).options;
    NewOptionsStep(pending, n);
    var news := NewOptions(pending[..n], u.key);
    OverrideLast(old_, news, u.option, u.value);
    if u.option in Last(doc).options {
      FindIn(us, u);
      assert (old_ + news)[u.option] == u.value;
      UpdateSame(old_ + news, u.option, u.value);
    }
  }

  lemma OverrideLast(m: map<string, string>, n: map<string, string>, k: string, v: string)
    ensures m + n[k := v] == (m + n)[k := v]
  {
  }

  lemma UpdateSame(m: map<string, string>, k: string, v: string)
    requires k in m && m[k] == v
    ensures m[k := v] == m
  {
  }

  lemma FlushOne(us: seq<Update>, doc: Document, f: State, pending: seq<Update>, n: nat)
    requires Proper(us) && doc != [] && n < |pending| && Distinct(pending)
    requires pending[n] in us && pending[n].key == Last(doc).key
    requires IdOf(pending[n]) in f.applied <==>
             pending[n].key in KeysOf(Front(doc)) || pending[n].option in Last(doc).options
    requires ParseLines(f.result) == Parsed(Closed(us, Front(doc)) + [Flushed(us, doc, pending[..n])])
    ensures ParseLines(AddMissing(f, pending[n]).result)
         == Parsed(Closed(us, Front(doc)) + [Flushed(us, doc, pending[..n + 1])])
  {
    FlushedStep(us, doc, pending, n);
    if IdOf(pending[n]) !in f.applied {
      AddMissingParsed(f, Closed(us, Front(doc)), Flushed(us, doc, pending[..n]), pending[n]);
    }
  }

  lemma {:induction false} NotYetApplied(st: State, pending: seq<Update>, n: nat, m: nat)
    requires Distinct(pending) && n <= m < |pending|
    ensures IdOf(pending[m]) in AddAllMissing(st, pending[..n]).applied <==> IdOf(pending[m]) in st.applied
  {
    ApplyAll(pending[..n], st);
    forall u | u in pending[..n] ensures IdOf(u) != IdOf(pending[m]) {
      var i :| 0 <= i < n && pending[i] == u;
    }
  }

  /** Flushing writes the missing options of the open section, one by one. */
  lemma {:induction false} FlushPrefix(us: seq<Update>, doc: Document, st: State, pending: seq<Update>, n: nat)
    requires Proper(us) && doc != [] && Mirrors(us, doc, st) && n <= |pending|
    requires pending == Pending(us, Last(doc).key) && Distinct(pending)
    ensures ParseLines(AddAllMissing(st, pending[..n]).result)
         == Parsed(Closed(us, Front(doc)) + [Flushed(us, doc, pending[..n])])
  {
    if n == 0 {
      var s := Overwritten(us, Last(doc));
      assert pending[..0] == [] && s.options + NewOptions([], s.key) == s.options;
    } else {
      var m := n - 1;
      FlushPrefix(us, doc, st, pending, m);
      PendingAt(us, doc, st, pending, m);
      FlushOne(us, doc, AddAllMissing(st, pending[..m]), pending, m);
      PrefixStep(pending, m);
    }
  }

  lemma PendingAt(us: seq<Update>, doc: Document, st: State, pending: seq<Update>, m: nat)
    requires doc != [] && Mirrors(us, doc, st) && m < |pending|
    requires pending == Pending(us, Last(doc).key) && Distinct(pending)
    ensures pending[m] in us && pending[m].key == Last(doc).key
    ensures IdOf(pending[m]) in AddAllMissing(st, pending[..m]).applied <==>
            pending[m].key in KeysOf(Front(doc)) || pending[m].option in Last(doc).options
  {
    assert pending[m] in pending;
    NotYetApplied(st, pending, m, m);
  }

  lemma NewOptionsStep(us: seq<Update>, n: nat)
    requires Distinct(us) && n < |us|
    ensures NewOptions(us[..n + 1], us[n].key) == NewOptions(us[..n], us[n].key)[us[n].option := us[n].value]
    ensures us[n].option !in NewOptions(us[..n], us[n].key)
    ensures forall k :: k != us[n].key ==> NewOptions(us[..n + 1], k) == NewOptions(us[..n], k)
  {
    var u, before, after := us[n], us[..n], us[..n + 1];
    PrefixStep(us, n);
    assert after == before + [u];
    FindDistinct(after, n);
    assert FindUpdate(before, IdOf(u)).None?;
    assert OptionNames(after, u.key) == OptionNames(before, u.key) + {u.option};
    assert NewOptions(after, u.key) == NewOptions(before, u.key)[u.option := u.value];
    hide NewOptions;
    forall k | k != u.key ensures NewOptions(after, k) == NewOptions(before, k) {
      NewOptionsElsewhere(before, u, k);
    }
  }

  lemma NewOptionsElsewhere(us: seq<Update>, u: Update, k: Key)
    requires k != u.key
    ensures NewOptions(us + [u], k) == NewOptions(us, k)
  {
    assert Front(us + [u]) == us;
    assert OptionNames(us + [u], k) == OptionNames(us, k);
  }

  lemma {:induction false} PendingFaithful(us: seq<Update>, key: Key)
    requires Distinct(us)
    ensures Distinct(Pending(us, key)) && NewOptions(Pending(us, key), key) == NewOptions(us, key)
  {
    var pending := Pending(us, key);
    PendingDistinct(us, key);
    assert OptionNames(pending, key) == OptionNames(us, key);
    hide FindUpdate, Pending, Distinct;
    forall o | o in OptionNames(us, key)
      ensures NewOptions(pending, key)[o] == NewOptions(us, key)[o]
    {
      FindUpdateInPending(us, key, o);
    }
  }

  lemma {:induction false} PendingDistinct(us: seq<Update>, key: Key)
    requires Distinct(us)
    ensures Distinct(Pending(us, key))
  {
    if us != [] {
      PendingDistinct(Front(us), key);
      var before := Pending(Front(us), key);
      forall i | 0 <= i < |before| ensures IdOf(before[i]) != IdOf(Last(us)) {
        assert before[i] in Front(us);
        var j :| 0 <= j < |us| - 1 && us[j] == before[i];
      }
    }
  }

  lemma FlushMirrors(us: seq<Update>, doc: Document, st: State)
    requires Proper(us) && Mirrors(us, doc, st)
    ensures ParseLines(FlushMissing(us, st).result) == Parsed(Closed(us, doc))
  {
    if doc != [] {
      var key := Last(doc).key;
      var pending := Pending(us, key);
      PendingFaithful(us, key);
      FlushPrefix(us, doc, st, pending, |pending|);
      assert pending[..|pending|] == pending;
    }
  }

  lemma OverwrittenSet(us: seq<Update>, s: Section, name: string, value: string)
    ensures Overwritten(us, WithEntry(s, false, name, value)) ==
            WithEntry(Overwritten(us, s), false, name, ValueOf(us, Id(s.key, name), value))
  {
    var a := Overwritten(us, WithEntry(s, false, name, value)).options;
    var b := WithEntry(Overwritten(us, s), false, name, ValueOf(us, Id(s.key, name), value)).options;
    assert a.Keys == b.Keys;
    assert a == b;
  }

  lemma OverwrittenList(us: seq<Update>, s: Section, name: string, value: string)
    ensures Overwritten(us, WithEntry(s, true, name, value)) == WithEntry(Overwritten(us, s), true, name, value)
  {
  }

  /** An entry line leaves the rewritten lines in step with the document. */
  lemma MirrorsEntry(us: seq<Update>, doc: Document, st: State, raw: string)
    requires Proper(us) && doc != [] && Mirrors(us, doc, st) && Classify(raw).Entry?
    ensures var e := Classify(raw);
            Mirrors(us, Front(doc) + [WithEntry(Last(doc), e.list, e.name, e.value)], RewriteLine(us, st, raw))
  {
    var e := Classify(raw);
    var s := Last(doc);
    var live := Overwritten(us, s);
    assert Live(us, doc) == Closed(us, Front(doc)) + [live];
    ParseAppend(st.result, raw);
    var doc' := Front(doc) + [WithEntry(s, e.list, e.name, e.value)];
    assert Front(doc') == Front(doc);
    if e.list {
      OverwrittenList(us, s, e.name, e.value);
    } else {
      OverwrittenSet(us, s, e.name, e.value);
      var found := FindUpdate(us, Id(s.key, e.name));
      if found.Some? {
        var line := Render(Indent(raw), e.name, found.value.value);
        IndentIsSpace(raw);
        RenderedOption(Indent(raw), e.name, found.value.value);
        ParseAppend(st.result, line);
      }
    }
  }

  lemma KeysSplit(doc: Document)
    requires doc != []
    ensures KeysOf(doc) == KeysOf(Front(doc)) + {Last(doc).key}
  {
    KeysOfAppend(Front(doc), Last(doc));
    assert Front(doc) + [Last(doc)] == doc;
  }

  lemma FlushedKeys(us: seq<Update>, doc: Document, st: State)
    requires Mirrors(us, doc, st)
    ensures forall u :: u in us ==> (IdOf(u) in FlushMissing(us, st).applied <==> u.key in KeysOf(doc))
  {
    if doc != [] {
      FlushApplied(us, st);
      KeysSplit(doc);
    }
  }

  /** A header line closes the open section and opens an empty one. */
  lemma MirrorsHeader(us: seq<Update>, doc: Document, st: State, raw: string)
    requires Proper(us) && Mirrors(us, doc, st) && Classify(raw).Header?
    ensures Mirrors(us, doc + [Section(Classify(raw).key, map[], map[])], RewriteLine(us, st, raw))
  {
    var s := Section(Classify(raw).key, map[], map[]);
    FlushMirrors(us, doc, st);
    ParseAppend(FlushMissing(us, st).result, raw);
    assert Front(doc + [s]) == doc && Overwritten(us, s) == s;
    FlushedKeys(us, doc, st);
  }

  lemma KeysStep(doc: Document, line: Line, n: nat)
    requires ParseLine(doc, line, n).Parsed?
    ensures KeysOf(ParseLine(doc, line, n).doc) ==
            KeysOf(doc) + match line { case Header(k) => {k} case _ => {} }
  {
    match line
    case Header(k) => KeysOfAppend(doc, Section(k, map[], map[]));
    case Entry(list, name, value) =>
      KeysOfAppend(Front(doc), Last(doc));
      KeysOfAppend(Front(doc), WithEntry(Last(doc), list, name, value));
      assert doc == Front(doc) + [Last(doc)];
    case _ =>
  }

  lemma {:induction false} KeysAreHeaders(lines: seq<string>)
    requires ParseLines(lines).Parsed?
    ensures KeysOf(ParseLines(lines).doc) == HeaderKeys(lines)
  {
    if lines != [] {
      KeysAreHeaders(Front(lines));
      KeysStep(ParseLines(Front(lines)).doc, Classify(Last(lines)), |lines|);
    }
  }

  lemma {:induction false} MirrorsLines(us: seq<Update>, lines: seq<string>)
    requires Proper(us) && ParseLines(lines).Parsed?
    ensures Mirrors(us, ParseLines(lines).doc, RewriteLines(us, lines))
  {
    if lines != [] {
      MirrorsLines(us, Front(lines));
      var doc, st := ParseLines(Front(lines)).doc, RewriteLines(us, Front(lines));
      var raw := Last(lines);
      match Classify(raw)
      case Header(k) => MirrorsHeader(us, doc, st, raw);
      case Entry(list, name, value) => MirrorsEntry(us, doc, st, raw);
      case _ => ParseAppend(st.result, raw);
    }
  }

  // ---------------------------------------------------------------- appended sections

  /** One more update: its option set in the last section again, or in a section of its own. */
  function Place(more: Document, again: bool, u: Update): Document
    requires again ==> more != []
  {
    if again then Front(more) + [WithEntry(Last(more), false, u.option, u.value)]
    else more + [Section(u.key, map[u.option := u.value], map[])]
  }

  /** The sections the rewriter appends: an update opens its section the first time, and otherwise
      goes wherever the text now ends. */
  function Placed(us: seq<Update>, present: set<Key>): Document {
    if us == [] then []
    else
      var before, u := Placed(Front(us), present), Last(us);
      if u.key in present then before
      else Place(before, before != [] && u.key in AbsentKeys(Front(us), present), u)
  }

  lemma {:induction false} PlacedKeys(us: seq<Update>, present: set<Key>)
    ensures var keys := AbsentKeys(us, present);
            |Placed(us, present)| == |keys| && forall i :: 0 <= i < |keys| ==> Placed(us, present)[i].key == keys[i]
  {
    if us != [] {
      PlacedKeys(Front(us), present);
    }
  }

  lemma AppendedHeader(st: State, doc: Document, key: Key)
    requires PlainName(key.typ) && ParseLines(st.result) == Parsed(doc)
    ensures ParseLines(st.result + [HeaderLine(key)]) == Parsed(doc + [Section(key, map[], map[])])
  {
    RenderedHeader(key);
    ParseAppend(st.result, HeaderLine(key));
  }

  lemma AppendedAgain(t: Tail, doc: Document, more: Document, u: Update)
    requires Writable(u) && IdOf(u) !in t.st.applied && ParseLines(t.st.result) == Parsed(doc + more)
    requires u.key in t.headed && more != []
    ensures ParseLines(AppendOne(t, u).st.result) == Parsed(doc + Place(more, true, u))
  {
    assert t.st.(result := t.st.result + []) == t.st;
    assert doc + more == (doc + Front(more)) + [Last(more)];
    AddMissingParsed(t.st, doc + Front(more), Last(more), u);
    assert (doc + Front(more)) + [WithEntry(Last(more), false, u.option, u.value)] == doc + Place(more, true, u);
  }

  lemma AppendedFirst(t: Tail, doc: Document, more: Document, u: Update)
    requires Writable(u) && IdOf(u) !in t.st.applied && ParseLines(t.st.result) == Parsed(doc + more)
    requires u.key !in t.headed
    ensures ParseLines(AppendOne(t, u).st.result) == Parsed(doc + Place(more, false, u))
  {
    AppendedHeader(t.st, doc + more, u.key);
    var st := t.st.(result := t.st.result + [HeaderLine(u.key)]);
    AddMissingParsed(st, doc + more, Section(u.key, map[], map[]), u);
    assert (doc + more) + [Section(u.key, map[u.option := u.value], map[])] == doc + Place(more, false, u);
  }

  lemma AppendAppliedAt(us: seq<Update>, n: nat, f: State, present: set<Key>)
    requires Distinct(us) && n < |us|
    requires forall u :: u in us ==> (IdOf(u) in f.applied <==> u.key in present)
    ensures var t := AppendNew(us[..n], f);
            && (IdOf(us[n]) in t.st.applied <==> us[n].key in present)
            && (us[n].key in t.headed <==> us[n].key in AbsentKeys(us[..n], present))
  {
    AppendApplied(us, n, f, present);
  }

  lemma {:induction false} AppendParsed(us: seq<Update>, n: nat, f: State, present: set<Key>, doc: Document)
    requires Proper(us) && n <= |us| && ParseLines(f.result) == Parsed(doc)
    requires forall u :: u in us ==> (IdOf(u) in f.applied <==> u.key in present)
    ensures ParseLines(AppendNew(us[..n], f).st.result) == Parsed(doc + Placed(us[..n], present))
  {
    if n == 0 {
      assert us[..0] == [] && doc + Placed([], present) == doc;
    } else {
      var m := n - 1;
      AppendParsed(us, m, f, present, doc);
      assert n == m + 1;
      AppendAppliedAt(us, m, f, present);
      AppendParsedStep(us, m, f, present, doc);
    }
  }

  lemma AppendParsedStep(us: seq<Update>, n: nat, f: State, present: set<Key>, doc: Document)
    requires Proper(us) && n < |us|
    requires ParseLines(AppendNew(us[..n], f).st.result) == Parsed(doc + Placed(us[..n], present))
    requires IdOf(us[n]) in AppendNew(us[..n], f).st.applied <==> us[n].key in present
    requires us[n].key in AppendNew(us[..n], f).headed <==> us[n].key in AbsentKeys(us[..n], present)
    ensures ParseLines(AppendNew(us[..n + 1], f).st.result) == Parsed(doc + Placed(us[..n + 1], present))
  {
    PrefixStep(us, n);
    PlacedKeys(us[..n], present);
    var t, u, more := AppendNew(us[..n], f), us[n], Placed(us[..n], present);
    if IdOf(u) !in t.st.applied {
      if u.key in t.headed {
        AppendedAgain(t, doc, more, u);
      } else {
        AppendedFirst(t, doc, more, u);
      }
    }
  }

  /** The text that rewriting produces, for any order of the updates. */
  lemma RewrittenParse(us: seq<Update>, lines: seq<string>)
    requires Proper(us) && ParseLines(lines).Parsed?
    ensures var doc := ParseLines(lines).doc;
            ParseLines(RewriteAll(us, lines).result) == Parsed(Closed(us, doc) + Placed(us, KeysOf(doc)))
  {
    var doc := ParseLines(lines).doc;
    var st := RewriteLines(us, lines);
    MirrorsLines(us, lines);
    KeysAreHeaders(lines);
    FlushMirrors(us, doc, st);
    AppliedAfterFlush(us, lines);
    AppendParsed(us, |us|, FlushMissing(us, st), KeysOf(doc), Closed(us, doc));
    assert us[..|us|] == us;
  }

  // ---------------------------------------------------------------- when the order is right

  lemma NoNewOptions(us: seq<Update>, key: Key)
    requires forall u :: u in us ==> u.key != key
    ensures NewOptions(us, key) == map[]
  {
  }

  lemma NewSectionsStep(us: seq<Update>, present: set<Key>, m: nat)
    requires Distinct(us) && m < |us| && Follows(us, present, m) && us[m].key !in present
    ensures var before, again := NewSections(us[..m], present), us[m].key in AbsentKeys(us[..m], present);
            (again ==> before != []) && NewSections(us[..m + 1], present) == Place(before, again, us[m])
  {
    var u, before, keys := us[m], NewSections(us[..m], present), AbsentKeys(us[..m], present);
    var after := NewSections(us[..m + 1], present);
    PrefixStep(us, m);
    NewOptionsStep(us, m);
    hide NewOptions;
    if u.key in keys {
      assert forall i :: 0 <= i < |keys| - 1 ==> after[i] == before[i];
      assert after[|keys| - 1] == WithEntry(Last(before), false, u.option, u.value);
    } else {
      AbsentKeysCover(us[..m], present, u.key);
      NoNewOptions(us[..m], u.key);
      assert forall i :: 0 <= i < |keys| ==> after[i] == before[i];
    }
  }

  lemma NewSectionsSkip(us: seq<Update>, present: set<Key>, m: nat)
    requires Distinct(us) && m < |us| && us[m].key in present
    ensures NewSections(us[..m + 1], present) == NewSections(us[..m], present)
  {
    var keys := AbsentKeys(us[..m], present);
    PrefixStep(us, m);
    NewOptionsStep(us, m);
    assert forall i :: 0 <= i < |keys| ==> keys[i] in keys && keys[i] != us[m].key;
  }

  lemma {:induction false} PlacedGrouped(us: seq<Update>, present: set<Key>, n: nat)
    requires Distinct(us) && n <= |us| && forall m :: 0 <= m < n ==> Follows(us, present, m)
    ensures Placed(us[..n], present) == NewSections(us[..n], present)
  {
    if n > 0 {
      var m := n - 1;
      PrefixStep(us, m);
      PlacedGrouped(us, present, m);
      assert Follows(us, present, m);
      assert Placed(us[..n], present) == if us[m].key in present then NewSections(us[..m], present)
        else var before := NewSections(us[..m], present);
             Place(before, before != [] && us[m].key in AbsentKeys(us[..m], present), us[m]);
      if us[m].key in present {
        NewSectionsSkip(us, present, m);
      } else {
        NewSectionsStep(us, present, m);
      }
    }
  }

  lemma {:induction false} PlacedFrozen(us: seq<Update>, present: set<Key>, n: nat, p: nat)
    requires n <= |us| && p + 1 < |Placed(us[..n], present)|
    ensures p < |Placed(us, present)| && Placed(us, present)[p] == Placed(us[..n], present)[p]
    ensures |Placed(us[..n], present)| <= |Placed(us, present)|
  {
    if n < |us| {
      assert Front(us)[..n] == us[..n];
      PlacedFrozen(Front(us), present, n, p);
    } else {
      assert us[..n] == us;
    }
  }

  /** If an update comes back to an absent section after another one was opened, its option is missing
      from the section it names. */
  lemma PlacedUngrouped(us: seq<Update>, present: set<Key>) returns (n: nat, p: nat)
    requires Distinct(us) && !Grouped(us, present)
    ensures n < |us| && us[n].key !in present
    ensures p < |Placed(us, present)| == |AbsentKeys(us, present)| && AbsentKeys(us, present)[p] == us[n].key
    ensures Placed(us, present)[p].key == us[n].key && us[n].option !in Placed(us, present)[p].options
  {
    var k :| 0 <= k < |us| && !Follows(us, present, k);
    n := FirstStray(us, present, k);
    var keys := AbsentKeys(us[..n], present);
    p :| 0 <= p < |keys| && keys[p] == us[n].key;
    StrayLacks(us, present, n, p);
    PlacedFrozen(us, present, n, p);
    PlacedKeys(us, present);
    AbsentKeysGrow(us, present, n);
  }

  lemma StrayLacks(us: seq<Update>, present: set<Key>, n: nat, p: nat)
    requires Distinct(us) && n < |us| && forall m :: 0 <= m < n ==> Follows(us, present, m)
    requires p < |AbsentKeys(us[..n], present)| && AbsentKeys(us[..n], present)[p] == us[n].key
    ensures |Placed(us[..n], present)| == |AbsentKeys(us[..n], present)|
    ensures us[n].option !in Placed(us[..n], present)[p].options
  {
    PlacedGrouped(us, present, n);
    NewOptionsStep(us, n);
  }

  lemma FirstStray(us: seq<Update>, present: set<Key>, k: nat) returns (n: nat)
    requires k < |us| && !Follows(us, present, k)
    ensures n < |us| && !Follows(us, present, n) && forall m :: 0 <= m < n ==> Follows(us, present, m)
    decreases k
  {
    n := k;
    if m :| 0 <= m < k && !Follows(us, present, m) {
      n := FirstStray(us, present, m);
    }
  }

  /** The sections come out as intended exactly when the updates of each absent section stand together. */
  lemma PlacedExact(us: seq<Update>, present: set<Key>)
    requires Distinct(us)
    ensures Placed(us, present) == NewSections(us, present) <==> Grouped(us, present)
  {
    if Grouped(us, present) {
      PlacedGrouped(us, present, |us|);
      assert us[..|us|] == us;
    } else {
      var n, p := PlacedUngrouped(us, present);
      assert us[n] in us;
      OptionsOf(us, us[n]);
      assert us[n].option in NewSections(us, present)[p].options;
    }
  }
}
