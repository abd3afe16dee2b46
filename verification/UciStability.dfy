/** Rewriting the rewriter's own output: the output is a fixed point, line by line. */
module UciStability {
  import opened Basics
  import opened GoStrings
  import opened Uci
  import opened UciLines
  import opened UciRewriting

  lemma AddMissingStable(us: seq<Update>, st: State, u: Update)
    requires Proper(us) && u in us && st.current == Some(u.key)
    requires RewriteLines(us, st.result) == st
    ensures var st' := AddMissing(st, u); RewriteLines(us, st'.result) == st'
  {
    FindIn(us, u);
    RenderedOption("\t", u.option, u.value);
    RunAppend(us, st.result, Render("\t", u.option, u.value));
  }

  lemma {:induction false} AddAllStable(us: seq<Update>, st: State, pending: seq<Update>)
    requires Proper(us)
    requires forall u :: u in pending ==> u in us && st.current == Some(u.key)
    requires RewriteLines(us, st.result) == st
    ensures var st' := AddAllMissing(st, pending); RewriteLines(us, st'.result) == st'
  {
    if pending != [] {
      AddAllStable(us, st, Front(pending));
      ApplyAll(Front(pending), st);
      AddMissingStable(us, AddAllMissing(st, Front(pending)), Last(pending));
    }
  }

  lemma FlushStable(us: seq<Update>, st: State)
    requires Proper(us) && RewriteLines(us, st.result) == st
    ensures var st' := FlushMissing(us, st); RewriteLines(us, st'.result) == st'
  {
    if st.current.Some? {
      AddAllStable(us, st, Pending(us, st.current.value));
    }
  }

  /** Running the rewriter over its own output so far ends in the state it is in. */
  lemma {:induction false} LinesStable(us: seq<Update>, lines: seq<string>)
    requires Proper(us)
    ensures var st := RewriteLines(us, lines); RewriteLines(us, st.result) == st
  {
    if lines != [] {
      LinesStable(us, Front(lines));
      var st := RewriteLines(us, Front(lines));
      var raw := Last(lines);
      match Classify(raw)
      case Header(_) =>
        FlushStable(us, st);
        FlushTwice(us, st);
        RunAppend(us, FlushMissing(us, st).result, raw);
      case Entry(false, name, _) =>
        RunAppend(us, st.result, raw);
        if st.current.Some? && FindUpdate(us, Id(st.current.value, name)).Some? {
          var u := FindUpdate(us, Id(st.current.value, name)).value;
          IndentIsSpace(raw);
          RenderedOption(Indent(raw), name, u.value);
          RunAppend(us, st.result, Render(Indent(raw), name, u.value));
        }
      case _ => RunAppend(us, st.result, raw);
    }
  }

  /** The section a rerun is in after the sections appended so far. */
  function Reached(us: seq<Update>, present: set<Key>, f: State): Option<Key> {
    var keys := AbsentKeys(us, present);
    if keys == [] then f.current else Some(Last(keys))
  }

  /** Once a section has been left, none of its updates is still to come. */
  lemma LeftForGood(us: seq<Update>, present: set<Key>, n: nat, m: nat)
    requires Grouped(us, present) && n <= m < |us|
    requires us[n].key !in present && us[n].key !in AbsentKeys(us[..n], present)
    ensures us[m].key !in AbsentKeys(us[..n], present)
  {
    if n < m {
      var before, now := AbsentKeys(us[..n], present), AbsentKeys(us[..m], present);
      PrefixStep(us, n);
      assert us[..m][..n + 1] == us[..n + 1];
      AbsentKeysGrow(us[..m], present, n + 1);
      assert before + [us[n].key] <= now;
      assert Follows(us, present, m);
      forall p | 0 <= p < |before| ensures us[m].key != before[p] {
        assert now[p] == before[p] && now[p] != Last(now);
      }
    }
  }

  lemma HeaderStable(us: seq<Update>, run: State, line: string, key: Key)
    requires RewriteLines(us, run.result) == run && FlushMissing(us, run) == run
    requires Classify(line) == Header(key)
    ensures RewriteLines(us, run.result + [line]) == State(run.result + [line], run.applied, Some(key))
  {
    RunAppend(us, run.result, line);
  }

  lemma AppendOneStable(us: seq<Update>, t: Tail, run: State, u: Update)
    requires Proper(us) && u in us && IdOf(u) !in t.st.applied
    requires RewriteLines(us, t.st.result) == run && run == t.st.(current := run.current)
    requires if u.key in t.headed then run.current == Some(u.key) else FlushMissing(us, run) == run
    ensures var t' := AppendOne(t, u); RewriteLines(us, t'.st.result) == t'.st.(current := Some(u.key))
  {
    var header := if u.key in t.headed then [] else [HeaderLine(u.key)];
    var headed := State(run.result + header, run.applied, Some(u.key));
    if u.key in t.headed {
      assert headed == run;
    } else {
      RenderedHeader(u.key);
      HeaderStable(us, run, HeaderLine(u.key), u.key);
    }
    AddMissingStable(us, headed, u);
    assert AddMissing(headed, u) == AddMissing(t.st.(result := t.st.result + header), u).(current := Some(u.key));
  }

  lemma ReachedStep(us: seq<Update>, present: set<Key>, f: State, n: nat)
    requires n < |us| && Follows(us, present, n)
    ensures Reached(us[..n + 1], present, f) ==
            if us[n].key in present then Reached(us[..n], present, f) else Some(us[n].key)
  {
    PrefixStep(us, n);
  }

  lemma {:induction false} AppendStable(us: seq<Update>, lines: seq<string>, n: nat)
    requires Proper(us) && n <= |us| && Grouped(us, HeaderKeys(lines))
    ensures var f := FlushMissing(us, RewriteLines(us, lines));
            var t := AppendNew(us[..n], f);
            RewriteLines(us, t.st.result) == t.st.(current := Reached(us[..n], HeaderKeys(lines), f))
  {
    var present := HeaderKeys(lines);
    var f := FlushMissing(us, RewriteLines(us, lines));
    if n == 0 {
      LinesStable(us, lines);
      FlushStable(us, RewriteLines(us, lines));
    } else {
      var m := n - 1;
      AppendStable(us, lines, m);
      AppliedAfterFlush(us, lines);
      AppendApplied(us, m, f, present);
      AppendStep(us, lines, m, f, AppendNew(us[..m], f));
    }
  }

  lemma AppendStep(us: seq<Update>, lines: seq<string>, m: nat, f: State, t: Tail)
    requires Proper(us) && m < |us| && Grouped(us, HeaderKeys(lines))
    requires f == FlushMissing(us, RewriteLines(us, lines)) && t == AppendNew(us[..m], f)
    requires IdOf(us[m]) in t.st.applied <==> us[m].key in HeaderKeys(lines)
    requires us[m].key in t.headed <==> us[m].key in AbsentKeys(us[..m], HeaderKeys(lines))
    requires RewriteLines(us, t.st.result) == t.st.(current := Reached(us[..m], HeaderKeys(lines), f))
    ensures var t' := AppendNew(us[..m + 1], f);
            RewriteLines(us, t'.st.result) == t'.st.(current := Reached(us[..m + 1], HeaderKeys(lines), f))
  {
    var present, u := HeaderKeys(lines), us[m];
    PrefixStep(us, m);
    assert Follows(us, present, m);
    ReachedStep(us, present, f, m);
    if IdOf(u) !in t.st.applied {
      if u.key !in t.headed {
        ReachedIsDone(us, lines, m);
      }
      AppendOneStable(us, t, RewriteLines(us, t.st.result), u);
    }
  }

  /** When a new section is about to be appended, the section before it has nothing missing. */
  lemma ReachedIsDone(us: seq<Update>, lines: seq<string>, n: nat)
    requires Proper(us) && n < |us| && Grouped(us, HeaderKeys(lines))
    requires us[n].key !in HeaderKeys(lines) && us[n].key !in AbsentKeys(us[..n], HeaderKeys(lines))
    ensures var f := FlushMissing(us, RewriteLines(us, lines));
            var st := AppendNew(us[..n], f).st.(current := Reached(us[..n], HeaderKeys(lines), f));
            FlushMissing(us, st) == st
  {
    var present := HeaderKeys(lines);
    var f := FlushMissing(us, RewriteLines(us, lines));
    var st := AppendNew(us[..n], f).st.(current := Reached(us[..n], present, f));
    AppliedAfterLines(us, lines);
    AppliedAfterFlush(us, lines);
    AppendApplied(us, n, f, present);
    if st.current.Some? {
      forall u | u in Pending(us, st.current.value) ensures IdOf(u) in st.applied {
        var m :| 0 <= m < |us| && us[m] == u;
        if m >= n {
          LeftForGood(us, present, n, m);
          FlushKeepsCurrent(us, RewriteLines(us, lines));
          assert u.key in present;
        }
      }
      ApplyAll(Pending(us, st.current.value), st);
    }
  }

  lemma FlushKeepsCurrent(us: seq<Update>, st: State)
    ensures FlushMissing(us, st).current == st.current
  {
    if st.current.Some? {
      ApplyAll(Pending(us, st.current.value), st);
    }
  }

  lemma {:induction false} NothingNew(us: seq<Update>, st: State)
    requires forall u :: u in us ==> IdOf(u) in st.applied
    ensures AppendNew(us, st).st == st
  {
    if us != [] {
      NothingNew(Front(us), st);
    }
  }

  /** The list of rewritten lines is a fixed point of rewriting. */
  lemma AllStable(us: seq<Update>, lines: seq<string>)
    requires Proper(us) && Grouped(us, HeaderKeys(lines))
    ensures RewriteAll(us, RewriteAll(us, lines).result).result == RewriteAll(us, lines).result
  {
    var present := HeaderKeys(lines);
    var f := FlushMissing(us, RewriteLines(us, lines));
    AppendStable(us, lines, |us|);
    assert us[..|us|] == us;
    AppliedAfterFlush(us, lines);
    AppendApplied(us, |us|, f, present);
    var again := RewriteLines(us, AppendNew(us, f).st.result);
    forall u | u in us ensures IdOf(u) in again.applied {
      var m :| 0 <= m < |us| && us[m] == u;
    }
    if again.current.Some? {
      ApplyAll(Pending(us, again.current.value), again);
    }
    NothingNew(us, again);
  }
}
