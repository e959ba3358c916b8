/** The state file over whole runs: sessions are saved, and each save's write lands when it
    lands and ends as it ends. */
module SessionRuns {
  import opened Text
  import opened SessionFile

  // A save composes its body at once; its write may land late, and several may be out.
  datatype Act = Save(ns: string, id: string) | Land(save: nat, w: Write)

  datatype State = State(saves: seq<Record>, file: string)

  predicate Enabled(s: State, a: Act) { a.Land? ==> a.save < |s.saves| }

  // What the given save wanted on file.
  function BodyOf(allowed: seq<string>, saves: seq<Record>, i: nat): string
    requires i < |saves|
  {
    Body(allowed, After(saves[..i + 1]))
  }

  function Exec(allowed: seq<string>, s: State, a: Act): State
    requires Enabled(s, a)
  {
    match a
    case Save(ns, id) => s.(saves := s.saves + [Record(ns, id)])
    case Land(i, w) => s.(file := Stored(s.file, BodyOf(allowed, s.saves, i), w))
  }

  predicate EnabledRun(allowed: seq<string>, acts: seq<Act>)
    decreases |acts|, 0
  {
    acts == []
    || (EnabledRun(allowed, acts[..|acts| - 1]) && Enabled(Ran(allowed, acts[..|acts| - 1]), acts[|acts| - 1]))
  }

  function Ran(allowed: seq<string>, acts: seq<Act>): State
    requires EnabledRun(allowed, acts)
    decreases |acts|, 1
  {
    if acts == [] then State([], "")
    else Exec(allowed, Ran(allowed, acts[..|acts| - 1]), acts[|acts| - 1])
  }

  // The last landing that got as far as touching the file.
  datatype Touch = Untouched | Touched(save: nat, w: Write)

  function LastTouch(acts: seq<Act>): Touch {
    if acts == [] then Untouched
    else
      var a := acts[|acts| - 1];
      if a.Land? && a.w != NotOpened then Touched(a.save, a.w) else LastTouch(acts[..|acts| - 1])
  }

  // The sessions a run saves, in order.
  function SavedBy(acts: seq<Act>): seq<Record> {
    if acts == [] then []
    else
      var a := acts[|acts| - 1];
      SavedBy(acts[..|acts| - 1]) + if a.Save? then [Record(a.ns, a.id)] else []
  }

  lemma {:induction false} SavesAre(allowed: seq<string>, acts: seq<Act>)
    requires EnabledRun(allowed, acts)
    ensures Ran(allowed, acts).saves == SavedBy(acts)
  {
    if acts != [] {
      SavesAre(allowed, acts[..|acts| - 1]);
    }
  }

  lemma {:induction false} FileIs(allowed: seq<string>, acts: seq<Act>)
    requires EnabledRun(allowed, acts)
    ensures var s, t := Ran(allowed, acts), LastTouch(acts);
      if t.Untouched? then s.file == ""
      else t.save < |s.saves| && t.w != NotOpened && s.file == Stored("", BodyOf(allowed, s.saves, t.save), t.w)
  {
    if acts != [] {
      FileIs(allowed, acts[..|acts| - 1]);
      var s, t := Ran(allowed, acts[..|acts| - 1]), LastTouch(acts[..|acts| - 1]);
      var a := acts[|acts| - 1];
      if a.Save? && t.Touched? {
        assert (s.saves + [Record(a.ns, a.id)])[..t.save + 1] == s.saves[..t.save + 1];
      }
    }
  }

  // --- a body, cut anywhere, against what later saves want -----------------------------------

  predicate ProperPrefix(a: string, b: string) { |a| < |b| && b[..|a|] == a }

  // later has what earlier has, or something else of the same kind in its place.
  ghost predicate Follows(earlier: map<string, string>, later: map<string, string>) {
    forall n :: Has(earlier, n) ==> Has(later, n) && !ProperPrefix(later[n], earlier[n])
  }

  lemma {:induction false} HeldGrows(allowed: seq<string>, a: map<string, string>, b: map<string, string>)
    requires Follows(a, b)
    ensures |Held(allowed, a)| <= |Held(allowed, b)|
  {
    if allowed != [] {
      HeldGrows(allowed[1..], a, b);
    }
  }

  lemma RecordsOne(line: string)
    ensures |RecordsOf(line)| <= 1
  {
  }

  lemma {:induction false} CutCount(allowed: seq<string>, saved: map<string, string>, n: nat)
    requires Storable(allowed, saved) && n <= |Body(allowed, saved)|
    ensures |Records(Split(Body(allowed, saved)[..n], '\n'))| <= |Held(allowed, saved)|
  {
    if allowed == [] {
      ReadsBack(allowed, saved);
    } else {
      var a, rest := allowed[0], Body(allowed[1..], saved);
      if !Has(saved, a) {
        assert Body(allowed, saved) == rest;
        CutCount(allowed[1..], saved, n);
      } else {
        var line := a + " " + saved[a];
        SolidNoNewline(a);
        SolidNoNewline(saved[a]);
        assert Body(allowed, saved) == line + "\n" + rest;
        if n <= |line| {
          assert Body(allowed, saved)[..n] == line[..n];
          OneLine(line[..n]);
        } else {
          var m := n - |line| - 1;
          assert Body(allowed, saved)[..n] == line + "\n" + rest[..m];
          RecordsFirst(line, rest[..m]);
          CutCount(allowed[1..], saved, m);
        }
      }
    }
  }

  // One line cut short says something else than any later save of its namespace.
  lemma CutLineLater(a: string, id: string, later: string, n: nat)
    requires Token(a) && Token(id) && Token(later) && !ProperPrefix(later, id) && n < |a + " " + id|
    ensures RecordsOf((a + " " + id)[..n]) != [Record(a, later)]
  {
    var line := a + " " + id;
    assert IsSpace(UNRECORDED[9]) && UNRECORDED != a;
    if n == 0 {
      assert Fields(line[..n]) == [];
    } else if n <= |a| {
      assert line[..n] == a[..n];
      OneField(a[..n]);
    } else if n == |a| + 1 {
      assert line[..n] == a + ([' '] + "");
      FieldsWord(a, [' '] + "");
      FieldsSpace(' ', "");
      assert Fields("") == [];
    } else {
      var part := id[..n - |a| - 1];
      assert line[..n] == a + " " + part;
      TwoFields(a, part);
      assert ProperPrefix(part, id);
    }
  }

  // The first line, and nothing of what follows it.
  lemma CutFirstLater(a: string, id: string, rest: string, n: nat, id': string, later: seq<Record>)
    requires Token(a) && Token(id) && Token(id') && !ProperPrefix(id', id) && n <= |a + " " + id|
    ensures Records(Split((a + " " + id + "\n" + rest)[..n], '\n')) == [Record(a, id')] + later
            <==> n == |a + " " + id| && id' == id && later == []
  {
    var line := a + " " + id;
    assert (line + "\n" + rest)[..n] == line[..n];
    SolidNoNewline(a);
    SolidNoNewline(id);
    OneLine(line[..n]);
    RecordsOne(line[..n]);
    if n < |line| {
      CutLineLater(a, id, id', n);
    } else {
      assert line[..n] == line;
      TwoFields(a, id);
      SameTail(Record(a, id), [], Record(a, id'), later);
      assert [Record(a, id)] + [] == [Record(a, id)];
    }
  }

  lemma {:induction false} CutAgainst(allowed: seq<string>, m: map<string, string>, m': map<string, string>, n: nat)
    requires Storable(allowed, m) && Storable(allowed, m') && Follows(m, m') && n <= |Body(allowed, m)|
    ensures Records(Split(Body(allowed, m)[..n], '\n')) == Held(allowed, m')
            <==> n + 1 >= |Body(allowed, m)| && Held(allowed, m) == Held(allowed, m')
  {
    if allowed == [] {
      ReadsBack(allowed, m);
    } else {
      var a, more := allowed[0], allowed[1..];
      if !Has(m, a) && Has(m', a) {
        CutCount(more, m, n);
        HeldGrows(more, m, m');
        assert Body(allowed, m) == Body(more, m) && Held(allowed, m) == Held(more, m);
      } else if !Has(m, a) {
        assert Body(allowed, m) == Body(more, m);
        assert Held(allowed, m) == Held(more, m) && Held(allowed, m') == Held(more, m');
        CutAgainst(more, m, m', n);
      } else {
        CutAgainstLine(allowed, m, m', n);
        if n > |a + " " + m[a]| {
          CutAgainst(more, m, m', n - |a + " " + m[a]| - 1);
        }
      }
    }
  }

  // The step of the above at a namespace that has a line.
  lemma CutAgainstLine(allowed: seq<string>, m: map<string, string>, m': map<string, string>, n: nat)
    requires Storable(allowed, m) && Storable(allowed, m') && Follows(m, m') && n <= |Body(allowed, m)|
    requires allowed != [] && Has(m, allowed[0])
    ensures var line, more := allowed[0] + " " + m[allowed[0]], allowed[1..]; var k := n - |line| - 1;
      && |Body(allowed, m)| == |line| + 1 + |Body(more, m)|
      && (n <= |line| ==>
            (Records(Split(Body(allowed, m)[..n], '\n')) == Held(allowed, m')
             <==> n + 1 >= |Body(allowed, m)| && Held(allowed, m) == Held(allowed, m')))
      && (n > |line| ==>
            && (Records(Split(Body(allowed, m)[..n], '\n')) == Held(allowed, m')
                <==> m[allowed[0]] == m'[allowed[0]] && Records(Split(Body(more, m)[..k], '\n')) == Held(more, m'))
            && (Held(allowed, m) == Held(allowed, m')
                <==> m[allowed[0]] == m'[allowed[0]] && Held(more, m) == Held(more, m')))
  {
    var a, more := allowed[0], allowed[1..];
    var line, rest, later, later' := a + " " + m[a], Body(more, m), Held(more, m), Held(more, m');
    assert Body(allowed, m) == line + "\n" + rest;
    SameTail(Record(a, m[a]), later, Record(a, m'[a]), later');
    if n <= |line| {
      HeldGrows(more, m, m');
      BodyEmpty(more, m);
      CutFirstLater(a, m[a], rest, n, m'[a], later');
    } else {
      var k := n - |line| - 1;
      assert Body(allowed, m)[..n] == line + "\n" + rest[..k];
      SolidNoNewline(a);
      SolidNoNewline(m[a]);
      RecordsFirst(line, rest[..k]);
      TwoFields(a, m[a]);
      SameTail(Record(a, m[a]), Records(Split(rest[..k], '\n')), Record(a, m'[a]), later');
    }
  }

  lemma SameTail(r: Record, x: seq<Record>, r': Record, y: seq<Record>)
    ensures [r] + x == [r'] + y <==> r == r' && x == y
  {
    assert ([r] + x)[0] == r && ([r] + x)[1..] == x && ([r'] + y)[0] == r' && ([r'] + y)[1..] == y;
  }

  /** A write cut short after n characters leaves a file that still reads back as the
      sessions there are if and only if all it lost is the last newline. */
  lemma CutReadsBack(allowed: seq<string>, saved: map<string, string>, n: nat)
    requires Storable(allowed, saved) && n <= |Body(allowed, saved)|
    ensures Records(Split(Body(allowed, saved)[..n], '\n')) == Held(allowed, saved) <==> n + 1 >= |Body(allowed, saved)|
  {
    CutAgainst(allowed, saved, saved, n);
  }

  // --- when the file is right -----------------------------------------------------------------

  // Session ids are tokens, and none is the beginning of another: ids of one length are.
  predicate ProperIds(saves: seq<Record>) {
    && (forall i :: 0 <= i < |saves| ==> Token(saves[i].id))
    && forall i, j :: 0 <= i < |saves| && 0 <= j < |saves| ==> !ProperPrefix(saves[i].id, saves[j].id)
  }

  // The write left all of its body but, at most, the last newline.
  predicate AllKept(body: string, w: Write) { w.CutShort? ==> w.n + 1 >= |body| }

  // No allowed namespace has had another session since this save.
  predicate NothingNew(allowed: seq<string>, saves: seq<Record>, i: nat)
    requires i < |saves|
  {
    forall j :: 0 <= j < |allowed| ==> LastId(saves, allowed[j]) == LastId(saves[..i + 1], allowed[j])
  }

  lemma {:induction false} LastIdIn(saves: seq<Record>, n: string)
    requires ProperIds(saves)
    ensures LastId(saves, n) == ""
            || exists i :: 0 <= i < |saves| && saves[i].ns == n && saves[i].id == LastId(saves, n)
  {
    if saves != [] {
      var init := saves[..|saves| - 1];
      assert ProperIds(init);
      LastIdIn(init, n);
      if saves[|saves| - 1].ns == n {
        assert saves[|saves| - 1].id == LastId(saves, n);
      } else if LastId(init, n) != "" {
        var i :| 0 <= i < |init| && init[i].ns == n && init[i].id == LastId(init, n);
        assert saves[i] == init[i];
      }
    }
  }

  lemma {:induction false} LastIdStays(saves: seq<Record>, i: nat, n: string)
    requires ProperIds(saves) && i <= |saves| && LastId(saves[..i], n) != ""
    ensures LastId(saves, n) != ""
    decreases |saves|
  {
    if i == |saves| {
      assert saves[..i] == saves;
    } else {
      var init := saves[..|saves| - 1];
      assert ProperIds(init) && init[..i] == saves[..i];
      LastIdStays(init, i, n);
    }
  }

  lemma AfterFollows(saves: seq<Record>, i: nat)
    requires ProperIds(saves) && i <= |saves|
    ensures Follows(After(saves[..i]), After(saves))
  {
    forall n | Has(After(saves[..i]), n)
      ensures Has(After(saves), n) && !ProperPrefix(After(saves)[n], After(saves[..i])[n])
    {
      AfterIsLast(saves[..i], n);
      AfterIsLast(saves, n);
      LastIdStays(saves, i, n);
      assert ProperIds(saves[..i]);
      LastIdIn(saves[..i], n);
      LastIdIn(saves, n);
    }
  }

  lemma SameHeld(allowed: seq<string>, saves: seq<Record>, i: nat)
    requires i < |saves|
    ensures Held(allowed, After(saves[..i + 1])) == Held(allowed, After(saves)) <==> NothingNew(allowed, saves, i)
  {
    HeldAgrees(allowed, After(saves[..i + 1]), After(saves));
    forall n ensures Agree(After(saves[..i + 1]), After(saves), n) <==> LastId(saves, n) == LastId(saves[..i + 1], n) {
      AfterIsLast(saves[..i + 1], n);
      AfterIsLast(saves, n);
    }
  }

  /** After any run of saves, with writes landing late, failing or cut short, the file reads
      back as the last session of each allowed namespace if and only if the last write to
      touch it left all of its body but at most the last newline, and no allowed namespace
      has had another session since that write's save - or nothing has touched it, and no
      allowed namespace has had a session. */
  lemma FileRight(allowed: seq<string>, acts: seq<Act>)
    requires EnabledRun(allowed, acts) && forall i :: 0 <= i < |allowed| ==> Token(allowed[i])
    requires ProperIds(Ran(allowed, acts).saves)
    ensures var s, t := Ran(allowed, acts), LastTouch(acts);
      Records(Split(s.file, '\n')) == LastSessions(allowed, s.saves)
      <==> if t.Untouched? then LastSessions(allowed, s.saves) == []
           else && t.save < |s.saves|
                && AllKept(BodyOf(allowed, s.saves, t.save), t.w) && NothingNew(allowed, s.saves, t.save)
  {
    var s, t := Ran(allowed, acts), LastTouch(acts);
    FileIs(allowed, acts);
    HeldIsLast(allowed, s.saves);
    if t.Untouched? {
      assert Split("", '\n') == [""] && Fields("") == [];
      assert Records([""]) == RecordsOf("") + Records([]);
    } else {
      TouchedRight(allowed, s.saves, s.file, t.save, t.w);
    }
  }

  lemma TouchedRight(allowed: seq<string>, saves: seq<Record>, file: string, i: nat, w: Write)
    requires (forall j :: 0 <= j < |allowed| ==> Token(allowed[j])) && ProperIds(saves)
    requires i < |saves| && w != NotOpened && file == Stored("", BodyOf(allowed, saves, i), w)
    ensures Records(Split(file, '\n')) == Held(allowed, After(saves))
            <==> AllKept(BodyOf(allowed, saves, i), w) && NothingNew(allowed, saves, i)
  {
    var past, body := saves[..i + 1], BodyOf(allowed, saves, i);
    var n := if w.CutShort? && w.n < |body| then w.n else |body|;
    assert file == body[..n];
    AfterSolid(past);
    AfterSolid(saves);
    AfterFollows(saves, i + 1);
    CutAgainst(allowed, After(past), After(saves), n);
    SameHeld(allowed, saves, i);
  }
}
