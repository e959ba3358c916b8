/** The state file: one line per namespace with the session held there, so that the
    next incarnation can depart what this one leaves behind. */
module SessionFile {
  import opened Text

  datatype Record = Record(ns: string, id: string)

  const UNRECORDED := "namespace not recorded"

  // --- writing ------------------------------------------------------------------------------

  predicate Has(saved: map<string, string>, n: string) { n in saved && saved[n] != "" }

  function Line(n: string, id: string): string { n + " " + id + "\n" }

  function Body(allowed: seq<string>, saved: map<string, string>): string {
    if allowed == [] then ""
    else (if Has(saved, allowed[0]) then Line(allowed[0], saved[allowed[0]]) else "") + Body(allowed[1..], saved)
  }

  lemma BodyNext(b: string, allowed: seq<string>, i: nat, saved: map<string, string>)
    requires i < |allowed|
    ensures b + Body(allowed[i..], saved)
         == (b + if Has(saved, allowed[i]) then Line(allowed[i], saved[allowed[i]]) else "")
             + Body(allowed[i + 1..], saved)
  {
  }

  // --- reading --------------------------------------------------------------------------------

  function RecordsOf(line: string): seq<Record> {
    var f := Fields(line);
    if f == [] then [] else if |f| == 1 then [Record(UNRECORDED, f[0])] else [Record(f[0], f[1])]
  }

  function Records(lines: seq<string>): seq<Record> {
    if lines == [] then [] else RecordsOf(lines[0]) + Records(lines[1..])
  }

  lemma RecordsNext(out: seq<Record>, lines: seq<string>, i: nat)
    requires i < |lines|
    ensures out + Records(lines[i..]) == (out + RecordsOf(lines[i])) + Records(lines[i + 1..])
  {
  }

  method RecordedSessions(body: string) returns (out: seq<Record>)
    ensures out == Records(Split(body, '\n'))
  {
    out := [];
    var lines := Split(body, '\n');
    for i := 0 to |lines|
      invariant out + Records(lines[i..]) == Records(lines)
    {
      var f := Fields(lines[i]);
      RecordsNext(out, lines, i);
      ghost var next := out + RecordsOf(lines[i]);
      if f == [] {
        assert out == next;
        continue;
      }
      if |f| == 1 {
        out := out + [Record(UNRECORDED, f[0])];
      } else {
        out := out + [Record(f[0], f[1])];
      }
      assert out == next;
    }
  }

  method Compose(allowed: seq<string>, saved: map<string, string>) returns (b: string)
    ensures b == Body(allowed, saved)
  {
    b := "";
    for i := 0 to |allowed|
      invariant b + Body(allowed[i..], saved) == Body(allowed, saved)
    {
      var n := allowed[i];
      BodyNext(b, allowed, i, saved);
      if n in saved && saved[n] != "" {
        b := b + Line(n, saved[n]);
      }
    }
    assert allowed[|allowed|..] == [] && b + "" == b;
  }

  // --- the server's record ------------------------------------------------------------------------

  class Sessions {
    const allowed: seq<string>
    const pathSet: bool
    var saved: map<string, string>
    var file: string

    constructor (allowed: seq<string>, pathSet: bool, file: string)
      ensures this.allowed == allowed && this.pathSet == pathSet && saved == map[] && this.file == file
    {
      this.allowed, this.pathSet, this.file := allowed, pathSet, file;
      saved := map[];
    }

    /** Notes a namespace's new session and rewrites the file whole. */
    method SaveSession(ns: string, id: string, w: Write)
      modifies this
      ensures saved == if pathSet then old(saved)[ns := id] else old(saved)
      ensures file == if pathSet then Stored(old(file), Body(allowed, saved), w) else old(file)
    {
      if !pathSet {
        return;
      }
      saved := saved[ns := id];
      var b := Compose(allowed, saved);
      file := Stored(file, b, w);
    }

    method ClearSessions(removed: bool)
      modifies this
      ensures saved == map[] && file == if pathSet && removed then "" else old(file)
    {
      saved := map[];
      if pathSet && removed {
        file := "";
      }
    }

    /** At a start: departs every session a previous incarnation recorded, in order, and
        forgets them. Nothing is departed when the file or the manager is out of reach. */
    method SweepPreviousSession(read: bool, connected: bool, removed: bool) returns (departed: seq<string>)
      modifies this
      ensures departed == if pathSet && read && connected then Ids(Records(Split(old(file), '\n'))) else []
      ensures if departed == [] then saved == old(saved) && file == old(file)
              else saved == map[] && file == if removed then "" else old(file)
    {
      departed := [];
      if !pathSet || !read {
        return;
      }
      var past := RecordedSessions(file);
      if past == [] || !connected {
        return;
      }
      for i := 0 to |past|
        invariant departed + Ids(past[i..]) == Ids(past) && |departed| == i
      {
        assert past[i..][1..] == past[i + 1..];
        departed := departed + [past[i].id];
      }
      assert past[|past|..] == [];
      ClearSessions(removed);
    }
  }

  function Ids(rs: seq<Record>): seq<string> { if rs == [] then [] else [rs[0].id] + Ids(rs[1..]) }

  lemma {:induction false} IdsAre(rs: seq<Record>)
    ensures |Ids(rs)| == |rs| && forall i :: 0 <= i < |rs| ==> Ids(rs)[i] == rs[i].id
  {
    if rs != [] {
      IdsAre(rs[1..]);
    }
  }

  // How a write of the file ends: whole, with nothing touched because it could not be
  // opened, or cut short after it was truncated.
  datatype Write = Whole | NotOpened | CutShort(n: nat)

  function Stored(file: string, body: string, w: Write): string {
    match w
    case Whole => body
    case NotOpened => file
    case CutShort(n) => if n < |body| then body[..n] else body
  }

  // --- round trips ------------------------------------------------------------------------------

  // A name the file can carry: there is one, and it has no white space in it.
  predicate Token(s: string) { s != "" && Solid(s) }

  ghost predicate Storable(allowed: seq<string>, saved: map<string, string>) {
    && (forall i :: 0 <= i < |allowed| ==> Token(allowed[i]))
    && (forall n :: n in saved ==> Solid(saved[n]))
  }

  // The sessions there are, in configured order.
  function Held(allowed: seq<string>, saved: map<string, string>): seq<Record> {
    if allowed == [] then []
    else (if Has(saved, allowed[0]) then [Record(allowed[0], saved[allowed[0]])] else []) + Held(allowed[1..], saved)
  }

  lemma OneField(w: string)
    requires Token(w)
    ensures Fields(w) == [w]
  {
    FieldsWord(w, "");
    assert w + "" == w;
  }

  lemma TwoFields(a: string, b: string)
    requires Token(a) && Token(b)
    ensures Fields(a + " " + b) == [a, b]
  {
    assert a + " " + b == a + ([' '] + b);
    FieldsWord(a, [' '] + b);
    FieldsSpace(' ', b);
    OneField(b);
  }

  /** A line of the file is the namespace and the session's id, in this order. */
  lemma LineReads(n: string, id: string)
    requires Token(n) && Token(id)
    ensures Fields(Line(n, id)) == [n, id] && Line(n, id)[|Line(n, id)| - 1] == '\n'
    ensures forall i :: 0 <= i < |Line(n, id)| - 1 ==> Line(n, id)[i] != '\n'
  {
    assert Line(n, id) == n + ([' '] + (id + "\n"));
    FieldsWord(n, [' '] + (id + "\n"));
    FieldsSpace(' ', id + "\n");
    FieldsWord(id, "\n");
    FieldsSpace('\n', "");
    assert ['\n'] + "" == "\n";
  }

  lemma {:induction false} SolidNoNewline(w: string)
    requires Solid(w)
    ensures '\n' !in w
  {
  }

  lemma {:induction false} RecordsFirst(line: string, rest: string)
    requires '\n' !in line
    ensures Records(Split(line + "\n" + rest, '\n')) == RecordsOf(line) + Records(Split(rest, '\n'))
  {
    SplitFirst(line, rest, '\n');
    assert line + ['\n'] + rest == line + "\n" + rest;
    var r := Split(rest, '\n');
    assert ([line] + r)[1..] == r;
  }

  /** Reading the file back gives exactly the sessions there are, in configured order. */
  lemma {:induction false} ReadsBack(allowed: seq<string>, saved: map<string, string>)
    requires Storable(allowed, saved)
    ensures Records(Split(Body(allowed, saved), '\n')) == Held(allowed, saved)
  {
    if allowed == [] {
      assert Split("", '\n') == [""];
      assert Records([""]) == RecordsOf("") + Records([]);
      assert Fields("") == [];
    } else {
      var n, rest := allowed[0], Body(allowed[1..], saved);
      ReadsBack(allowed[1..], saved);
      if !Has(saved, n) {
        assert Body(allowed, saved) == rest;
      } else {
        var line := n + " " + saved[n];
        TwoFields(n, saved[n]);
        SolidNoNewline(n);
        SolidNoNewline(saved[n]);
        RecordsFirst(line, rest);
        assert Body(allowed, saved) == line + "\n" + rest;
      }
    }
  }

  // --- runs of reconnects -----------------------------------------------------------------------

  // A run of saves, as the map keeps it.
  function After(saves: seq<Record>): map<string, string> {
    if saves == [] then map[]
    else
      var last := saves[|saves| - 1];
      After(saves[..|saves| - 1])[last.ns := last.id]
  }

  // The last id a namespace was given, or "".
  function LastId(saves: seq<Record>, n: string): string {
    if saves == [] then ""
    else if saves[|saves| - 1].ns == n then saves[|saves| - 1].id
    else LastId(saves[..|saves| - 1], n)
  }

  lemma {:induction false} AfterIsLast(saves: seq<Record>, n: string)
    ensures LastId(saves, n) == if n in After(saves) then After(saves)[n] else ""
  {
    if saves != [] {
      AfterIsLast(saves[..|saves| - 1], n);
    }
  }

  // Each allowed namespace with its last session, for those that have one.
  function LastSessions(allowed: seq<string>, saves: seq<Record>): seq<Record> {
    if allowed == [] then []
    else (if LastId(saves, allowed[0]) != "" then [Record(allowed[0], LastId(saves, allowed[0]))] else [])
         + LastSessions(allowed[1..], saves)
  }

  lemma {:induction false} HeldIsLast(allowed: seq<string>, saves: seq<Record>)
    ensures Held(allowed, After(saves)) == LastSessions(allowed, saves)
  {
    if allowed != [] {
      AfterIsLast(saves, allowed[0]);
      HeldIsLast(allowed[1..], saves);
    }
  }

  lemma {:induction false} AfterSolid(saves: seq<Record>)
    requires forall i :: 0 <= i < |saves| ==> Solid(saves[i].id)
    ensures forall n :: n in After(saves) ==> Solid(After(saves)[n])
  {
    if saves != [] {
      AfterSolid(saves[..|saves| - 1]);
    }
  }

  /** After any run of reconnects, the file written last reads back as the last session
      of each allowed namespace that has one, in configured order. */
  lemma RunReadsBack(allowed: seq<string>, saves: seq<Record>)
    requires forall i :: 0 <= i < |allowed| ==> Token(allowed[i])
    requires forall i :: 0 <= i < |saves| ==> Solid(saves[i].id)
    ensures Records(Split(Body(allowed, After(saves)), '\n')) == LastSessions(allowed, saves)
  {
    AfterSolid(saves);
    ReadsBack(allowed, After(saves));
    HeldIsLast(allowed, saves);
  }

  lemma {:induction false} HeldHas(allowed: seq<string>, saved: map<string, string>, r: Record)
    requires r in Held(allowed, saved)
    ensures Has(saved, r.ns) && saved[r.ns] == r.id
  {
    if !(Has(saved, allowed[0]) && r == Record(allowed[0], saved[allowed[0]])) {
      HeldHas(allowed[1..], saved, r);
    }
  }

  predicate Agree(a: map<string, string>, b: map<string, string>, n: string) {
    Has(a, n) == Has(b, n) && (Has(a, n) ==> a[n] == b[n])
  }

  lemma HeldFirst(allowed: seq<string>, a: map<string, string>, b: map<string, string>)
    requires allowed != [] && Held(allowed, a) == Held(allowed, b)
    ensures Agree(a, b, allowed[0])
  {
    forall x, y | x in [a, b] && y in [a, b] && Has(x, allowed[0]) && Held(allowed, x) == Held(allowed, y)
      ensures Agree(x, y, allowed[0])
    {
      assert Held(allowed, x)[0] == Record(allowed[0], x[allowed[0]]);
      HeldHas(allowed, y, Held(allowed, x)[0]);
    }
    assert a in [a, b] && b in [a, b];
  }

  lemma {:induction false} HeldAgrees(allowed: seq<string>, a: map<string, string>, b: map<string, string>)
    ensures Held(allowed, a) == Held(allowed, b) <==>
            forall i :: 0 <= i < |allowed| ==> Agree(a, b, allowed[i])
  {
    if allowed != [] {
      var n, rest := allowed[0], allowed[1..];
      HeldAgrees(rest, a, b);
      if Held(allowed, a) == Held(allowed, b) {
        HeldFirst(allowed, a, b);
        var h := if Has(a, n) then [Record(n, a[n])] else [];
        assert Held(allowed, a)[|h|..] == Held(rest, a) && Held(allowed, b)[|h|..] == Held(rest, b);
        forall i | 0 <= i < |allowed| ensures Agree(a, b, allowed[i]) {
          assert i > 0 ==> allowed[i] == rest[i - 1];
        }
      }
      assert forall i | 0 <= i < |rest| :: rest[i] == allowed[i + 1];
    }
  }

  /** The body is composed under the lock and written outside it, so of two saves the
      earlier one's may land last. What is then on file reads as it should if and only
      if the two bodies' maps agree on every allowed namespace - that is, if the later
      save was outside them or said nothing new. */
  lemma StaleWrite(allowed: seq<string>, earlier: map<string, string>, ns: string, id: string)
    requires Storable(allowed, earlier) && Token(id)
    ensures Records(Split(Body(allowed, earlier), '\n')) == Held(allowed, earlier[ns := id])
            <==> ns !in allowed || (ns in earlier && earlier[ns] == id)
  {
    ReadsBack(allowed, earlier);
    SavedAgrees(allowed, earlier, ns, id);
  }

  lemma SavedAgrees(allowed: seq<string>, earlier: map<string, string>, ns: string, id: string)
    requires id != ""
    ensures Held(allowed, earlier) == Held(allowed, earlier[ns := id])
            <==> ns !in allowed || (ns in earlier && earlier[ns] == id)
  {
    var later := earlier[ns := id];
    HeldAgrees(allowed, earlier, later);
    forall i | 0 <= i < |allowed|
      ensures Agree(earlier, later, allowed[i]) <==> allowed[i] != ns || (ns in earlier && earlier[ns] == id)
    {
    }
  }

  // --- single lines -----------------------------------------------------------------------------

  lemma OneLine(line: string)
    requires '\n' !in line
    ensures Records(Split(line, '\n')) == RecordsOf(line)
  {
    SplitClean(line, '\n');
    assert Records([line]) == RecordsOf(line) + Records([]);
  }

  lemma {:induction false} BodyEmpty(allowed: seq<string>, saved: map<string, string>)
    ensures Body(allowed, saved) == "" <==> Held(allowed, saved) == []
  {
    if allowed != [] {
      BodyEmpty(allowed[1..], saved);
    }
  }

  // --- older files --------------------------------------------------------------------------------

  function Unrecorded(ids: seq<string>): seq<Record> {
    if ids == [] then [] else [Record(UNRECORDED, ids[0])] + Unrecorded(ids[1..])
  }

  /** A file of bare session ids, with or without a last newline, is one session a
      line. */
  lemma {:induction false} LegacyReads(ids: seq<string>)
    requires ids != [] && forall i :: 0 <= i < |ids| ==> Token(ids[i])
    ensures Records(Split(Join(ids, '\n'), '\n')) == Unrecorded(ids)
    ensures Records(Split(Join(ids, '\n') + "\n", '\n')) == Unrecorded(ids)
  {
    OneField(ids[0]);
    SolidNoNewline(ids[0]);
    if |ids| == 1 {
      SplitClean(ids[0], '\n');
      assert Records([ids[0]]) == RecordsOf(ids[0]) + Records([]);
      RecordsFirst(ids[0], "");
      assert Split("", '\n') == [""] && Fields("") == [];
      assert Records([""]) == RecordsOf("") + Records([]);
      assert ids[0] + "\n" + "" == Join(ids, '\n') + "\n";
    } else {
      var rest := Join(ids[1..], '\n');
      LegacyReads(ids[1..]);
      RecordsFirst(ids[0], rest);
      RecordsFirst(ids[0], rest + "\n");
      assert ids[0] + "\n" + rest == Join(ids, '\n');
      assert ids[0] + "\n" + (rest + "\n") == Join(ids, '\n') + "\n";
    }
  }
}
