// What the two passes leave in straight-line code, told from its uses and definitions: versions
// count definitions, and the marks are on the last use of each version and nowhere else.
module SsaLaws {
  import opened Ast
  import opened Ssa
  import Programs

  // ---- Versions count definitions ----

  /** How often `name` has been defined. */
  function Definitions(ev: seq<Event>, name: string): nat {
    if ev == [] then 0
    else Definitions(ev[..|ev| - 1], name) + if ev[|ev| - 1] == Def(name) then 1 else 0
  }

  function Mentioned(ev: seq<Event>): set<string> {
    set e | e in ev :: e.name
  }

  function Least(m: nat, n: nat): nat {
    if m < n then m else n
  }

  function NamesIn(t: Table): set<string> {
    set x | x in t :: x.name
  }

  lemma FindIsMembership(t: Table, name: string)
    ensures Find(t, name) < |t| <==> name in NamesIn(t)
  {
    if Find(t, name) < |t| {
      assert t[Find(t, name)] in t;
    }
  }

  lemma FindSame(t: Table, u: Table, name: string)
    requires |t| == |u| && forall i :: 0 <= i < |t| ==> u[i].name == t[i].name
    ensures Find(u, name) == Find(t, name)
  {
  }

  lemma FindAtEnd(t: Table, x: SsaVar, name: string)
    requires Find(t, name) == |t|
    ensures Find(t + [x], name) == if x.name == name then |t| else |t| + 1
  {
    assert (t + [x])[|t|] == x;
    assert forall i :: 0 <= i < |t| ==> (t + [x])[i] == t[i];
  }

  /** The versions of a name are numbered as it is defined, up to the tenth; a name without an entry has not been
      mentioned, unless the table is full. */
  ghost predicate Counts(t: Table, ev: seq<Event>, name: string) {
    var i := Find(t, name);
    if i < |t| then
      && |t[i].versionStack| == t[i].totalVersions == Least(Definitions(ev, name), MAX_VERSIONS)
      && forall k :: 0 <= k < |t[i].versionStack| ==> t[i].versionStack[k] == k
    else name !in Mentioned(ev) || |t| >= MAX_SSA_VARS
  }

  lemma {:induction false} Undefined(ev: seq<Event>, name: string)
    requires name !in Mentioned(ev)
    ensures Definitions(ev, name) == 0
    decreases |ev|
  {
    if ev != [] {
      assert forall e :: e in ev[..|ev| - 1] ==> e in ev;
      assert ev[|ev| - 1] in ev;
      Undefined(ev[..|ev| - 1], name);
    }
  }

  lemma MentionedOn(ev: seq<Event>, e: Event)
    ensures Mentioned(ev + [e]) == Mentioned(ev) + {e.name}
    ensures Definitions(ev + [e], e.name) == Definitions(ev, e.name) + if e.Def? then 1 else 0
    ensures forall name :: name != e.name ==> Definitions(ev + [e], name) == Definitions(ev, name)
  {
    assert (ev + [e])[..|ev|] == ev;
    assert forall x :: x in ev + [e] <==> x in ev || x == e;
  }

  /** An entry is made for the name of an event, if there is room. */
  lemma CreateCounts(t: Table, ev: seq<Event>, e: Event, name: string)
    requires Counts(t, ev, name) && e.Use?
    ensures Counts(FindOrCreate(t, e.name), ev + [e], name)
  {
    var t' := FindOrCreate(t, e.name);
    MentionedOn(ev, e);
    if Find(t, name) < |t| {
      FindUnaffected(t, t', name);
    } else {
      if t' != t {
        FindAtEnd(t, SsaVar(e.name, [], 0), name);
      }
      if name == e.name && |t| < MAX_SSA_VARS {
        Undefined(ev, name);
      }
    }
  }

  lemma PushCounts(t: Table, ev: seq<Event>, name: string, other: string)
    requires Counts(t, ev, name)
    ensures Counts(Push(t, other), ev + [Def(other)], name)
  {
    var t', t'' := FindOrCreate(t, other), Push(t, other);
    CreateCounts(t, ev, Use(other, 0, false), name);
    MentionedOn(ev, Use(other, 0, false));
    MentionedOn(ev, Def(other));
    FindSame(t', t'', name);
  }

  lemma {:induction false} AfterCounts(ev: seq<Event>, name: string)
    ensures Counts(After(ev, []), ev, name)
    decreases |ev|
  {
    if ev != [] {
      var front, last := ev[..|ev| - 1], ev[|ev| - 1];
      assert ev == front + [last];
      AfterCounts(front, name);
      match last
      case Use(_, _, _) => CreateCounts(After(front, []), front, last, name);
      case Def(other) => PushCounts(After(front, []), front, name, other);
    }
  }

  lemma {:induction false} TableHoldsMentioned(ev: seq<Event>)
    ensures NamesIn(After(ev, [])) <= Mentioned(ev) && |NamesIn(After(ev, []))| == |After(ev, [])|
    decreases |ev|
  {
    if ev != [] {
      var front, last := ev[..|ev| - 1], ev[|ev| - 1];
      assert ev == front + [last];
      TableHoldsMentioned(front);
      MentionedOn(front, last);
      NamesGrow(After(front, []), last.name);
    }
  }

  lemma NamesGrow(t: Table, name: string)
    requires |NamesIn(t)| == |t|
    ensures var t' := FindOrCreate(t, name);
            && NamesIn(t) <= NamesIn(t') <= NamesIn(t) + {name} && |NamesIn(t')| == |t'|
            && NamesIn(Push(t, name)) == NamesIn(t') && |Push(t, name)| == |t'|
  {
    var t' := FindOrCreate(t, name);
    FindIsMembership(t, name);
    if t' != t {
      assert forall x :: x in t' <==> x in t || x == SsaVar(name, [], 0);
      assert NamesIn(t') == NamesIn(t) + {name};
    }
    SameNames(t', Push(t, name));
  }

  lemma SameNames(t: Table, u: Table)
    requires |t| == |u| && forall i :: 0 <= i < |t| ==> u[i].name == t[i].name
    ensures NamesIn(u) == NamesIn(t)
  {
    forall name
      ensures name in NamesIn(u) <==> name in NamesIn(t)
    {
      FindIsMembership(t, name);
      FindIsMembership(u, name);
      FindSame(t, u, name);
    }
  }

  lemma Smaller<T>(a: set<T>, b: set<T>, x: T)
    requires a <= b && x in b && x !in a
    ensures |a| < |b|
  {
    assert a <= b - {x};
    SizeMonotone(a, b - {x});
  }

  lemma {:induction false} SizeMonotone<T>(a: set<T>, b: set<T>)
    requires a <= b
    ensures |a| <= |b|
    decreases |a|
  {
    if x :| x in a {
      SizeMonotone(a - {x}, b - {x});
    }
  }

  /** As long as there are not too many names, the current version of a name is the number of its definitions so
      far, less one; from the tenth on it stays as it is. */
  lemma CurrentCountsDefinitions(ev: seq<Event>, name: string)
    requires |Mentioned(ev)| <= MAX_SSA_VARS
    ensures Current(After(ev, []), name) == Least(Definitions(ev, name), MAX_VERSIONS) - 1
  {
    var t := After(ev, []);
    AfterCounts(ev, name);
    if Find(t, name) == |t| {
      TableHoldsMentioned(ev);
      FindIsMembership(t, name);
      if name in Mentioned(ev) {
        Smaller(NamesIn(t), Mentioned(ev), name);
      }
      Undefined(ev, name);
    }
  }

  // ---- The marks are on the last uses ----

  /** The last use of the version is marked, if there is one. */
  ghost predicate Ended(ev: seq<Event>, name: string, version: int) {
    forall i :: 0 <= i < |ev| && Matches(ev[i], name, version) && NoMatch(ev[i + 1..], name, version) ==> ev[i].marked
  }

  ghost predicate MarksKept(a: seq<Event>, b: seq<Event>) {
    SameButMarks(a, b) && forall i :: 0 <= i < |a| && a[i].Use? && a[i].marked ==> b[i].marked
  }

  lemma EndedKept(a: seq<Event>, b: seq<Event>, name: string, version: int)
    requires MarksKept(a, b) && Ended(a, name, version)
    ensures Ended(b, name, version)
  {
    forall i | 0 <= i < |b| && Matches(b[i], name, version) && NoMatch(b[i + 1..], name, version)
      ensures b[i].marked
    {
      assert SameButMark(a[i], b[i]);
      var tail, tail' := a[i + 1..], b[i + 1..];
      forall j | 0 <= j < |tail|
        ensures !Matches(tail[j], name, version)
      {
        assert SameButMark(a[i + 1 + j], b[i + 1 + j]) && !Matches(tail'[j], name, version);
      }
    }
  }

  lemma MarkingEnds(ev: seq<Event>, after: seq<Event>, name: string, version: int, found: bool)
    requires MarkedLast(ev, after, name, version, found)
    ensures MarksKept(ev, after) && Ended(after, name, version)
  {
    if found {
      var i :| 0 <= i < |ev| && Matches(ev[i], name, version) && NoMatch(ev[i + 1..], name, version)
               && after == ev[i := ev[i].(marked := true)];
      forall j | 0 <= j < |after| && j != i
        ensures !(Matches(after[j], name, version) && NoMatch(after[j + 1..], name, version))
      {
        if j < i {
          assert Matches(after[j + 1..][i - j - 1], name, version);
        } else {
          assert ev[i + 1..][j - i - 1] == ev[j];
        }
      }
    } else {
      forall j | 0 <= j < |ev|
        ensures !Matches(ev[j], name, version)
      {
      }
    }
  }

  lemma MarksKeptOn(a: seq<Event>, b: seq<Event>, c: seq<Event>)
    requires MarksKept(a, b) && MarksKept(b, c)
    ensures MarksKept(a, c)
  {
    forall i | 0 <= i < |a|
      ensures SameButMark(a[i], c[i]) && (a[i].Use? && a[i].marked ==> c[i].marked)
    {
      assert SameButMark(a[i], b[i]) && SameButMark(b[i], c[i]);
    }
  }

  lemma {:induction false} MarkVersionsEnds(s: Stmt, name: string, n: nat, version: nat)
    requires Straight(s)
    ensures MarksKept(EventsS(s), EventsS(MarkVersions(s, name, n)))
    ensures version < n ==> Ended(EventsS(MarkVersions(s, name, n)), name, version)
    decreases n
  {
    if n > 0 {
      var s' := MarkVersions(s, name, n - 1);
      var (s'', found) := MarkS(s', name, n - 1, false);
      MarkVersionsEnds(s, name, n - 1, version);
      MarkSEvents(s', name, n - 1);
      MarkingEnds(EventsS(s'), EventsS(s''), name, n - 1, found);
      MarksKeptOn(EventsS(s), EventsS(s'), EventsS(s''));
      if version < n - 1 {
        EndedKept(EventsS(s'), EventsS(s''), name, version);
      }
    }
  }

  lemma {:induction false} MarkVarsEnds(s: Stmt, t: Table, i: nat, version: nat)
    requires Straight(s)
    ensures MarksKept(EventsS(s), EventsS(MarkVars(s, t)))
    ensures i < |t| && version < t[i].totalVersions ==> Ended(EventsS(MarkVars(s, t)), t[i].name, version)
    decreases |t|
  {
    if t != [] {
      var front, last := t[..|t| - 1], t[|t| - 1];
      var s' := MarkVars(s, front);
      var s'' := MarkVersions(s', last.name, last.totalVersions);
      MarkVarsEnds(s, front, i, version);
      MarkVersionsEnds(s', last.name, last.totalVersions, version);
      MarksKeptOn(EventsS(s), EventsS(s'), EventsS(s''));
      if i < |front| && version < t[i].totalVersions {
        EndedKept(EventsS(s'), EventsS(s''), t[i].name, version);
      }
    }
  }

  lemma {:induction false} EntriesStay(a: seq<Event>, b: seq<Event>)
    ensures NamesIn(After(a, [])) <= NamesIn(After(a + b, []))
    decreases |b|
  {
    if b == [] {
      assert a + b == a;
    } else {
      var front, last := b[..|b| - 1], b[|b| - 1];
      assert (a + b)[..|a + b| - 1] == a + front;
      EntriesStay(a, front);
      TableHoldsMentioned(a + front);
      NamesGrow(After(a + front, []), last.name);
    }
  }

  lemma {:induction false} DefinitionsGrow(a: seq<Event>, b: seq<Event>, name: string)
    ensures Definitions(a, name) <= Definitions(a + b, name)
    decreases |b|
  {
    if b == [] {
      assert a + b == a;
    } else {
      assert (a + b)[..|a + b| - 1] == a + b[..|b| - 1];
      DefinitionsGrow(a, b[..|b| - 1], name);
    }
  }

  /** The marking has a sweep for every version that a use can have. */
  lemma VersionsGrow(a: seq<Event>, b: seq<Event>, all: seq<Event>, name: string)
    requires all == a + b && Current(After(a, []), name) >= 0
    ensures var t := After(all, []);
            Find(t, name) < |t| && Current(After(a, []), name) < t[Find(t, name)].totalVersions
  {
    EntriesStay(a, b);
    FindIsMembership(After(a, []), name);
    FindIsMembership(After(all, []), name);
    CurrentIsLess(a, name);
    TotalIsLeast(all, name);
    DefinitionsGrow(a, b, name);
  }

  lemma TotalIsLeast(ev: seq<Event>, name: string)
    requires Find(After(ev, []), name) < |After(ev, [])|
    ensures After(ev, [])[Find(After(ev, []), name)].totalVersions == Least(Definitions(ev, name), MAX_VERSIONS)
  {
    AfterCounts(ev, name);
  }

  lemma CurrentIsLess(ev: seq<Event>, name: string)
    requires Current(After(ev, []), name) >= 0
    ensures Current(After(ev, []), name) == Least(Definitions(ev, name), MAX_VERSIONS) - 1
  {
    AfterCounts(ev, name);
  }

  lemma VersionIsEnded(s: Stmt, bare: seq<Event>, i: nat, name: string, version: int)
    requires Straight(s) && i <= |bare| && Current(After(bare[..i], []), name) == version && version >= 0
    ensures Ended(EventsS(MarkVars(s, After(bare, []))), name, version)
  {
    var before, rest := bare[..i], bare[i..];
    assert before + rest == bare;
    VersionsGrow(before, rest, bare, name);
    MarkVarsEnds(s, After(bare, []), Find(After(bare, []), name), version);
  }

  /** Whatever the size of the program, the marked uses of straight-line code are those that have a version and are
      the last to have it. */
  lemma MarksAreExactlyLastUses(s: Stmt, i: nat)
    requires Straight(s) && Unmarked(EventsS(s)) && i < |EventsS(Annotate(s))| && EventsS(Annotate(s))[i].Use?
    ensures var ev := EventsS(Annotate(s));
            ev[i].marked <==> ev[i].version >= 0 && NoMatch(ev[i + 1..], ev[i].name, ev[i].version)
  {
    var (s', t) := NumberS(s, []);
    var bare, numbered, ev := EventsS(s), EventsS(s'), EventsS(Annotate(s));
    NumberSEvents(s, []);
    assert MarksEndVersions(numbered);
    MarkVarsKeepsEnds(s', t);
    assert EndsVersion(ev, i) && SameButMark(numbered[i], ev[i]);
    if ev[i].version >= 0 && NoMatch(ev[i + 1..], ev[i].name, ev[i].version) {
      VersionIsEnded(s', bare, i, ev[i].name, ev[i].version);
      assert Matches(ev[i], ev[i].name, ev[i].version);
    }
  }

  /** With at most a hundred names, a use has as its version the number of definitions of its name before it, less
      one, and no more than nine: -1 where there is none. */
  lemma VersionsCountDefinitions(s: Stmt, i: nat)
    requires Straight(s) && Unmarked(EventsS(s)) && |Mentioned(EventsS(s))| <= MAX_SSA_VARS
    requires i < |EventsS(Annotate(s))| && EventsS(Annotate(s))[i].Use?
    ensures |EventsS(Annotate(s))| == |EventsS(s)|
    ensures var use := EventsS(Annotate(s))[i];
            use.version == Least(Definitions(EventsS(s)[..i], use.name), MAX_VERSIONS) - 1
  {
    var (s', t) := NumberS(s, []);
    var bare, numbered, ev := EventsS(s), EventsS(s'), EventsS(Annotate(s));
    NumberSEvents(s, []);
    assert MarksEndVersions(numbered);
    MarkVarsKeepsEnds(s', t);
    assert SameButMark(numbered[i], ev[i]);
    assert forall e :: e in bare[..i] ==> e in bare;
    SizeMonotone(Mentioned(bare[..i]), Mentioned(bare));
    CurrentCountsDefinitions(bare[..i], ev[i].name);
  }

  // ---- What a condition uses ----

  predicate NoCalls(e: Expr) {
    match e
    case Unary(_, operand) => NoCalls(operand)
    case Binary(l, _, r) => NoCalls(l) && NoCalls(r)
    case Call(_, _) => false
    case _ => true
  }

  /** The search for a variable in a condition finds what the condition mentions, but does not look into calls. */
  lemma {:induction false} UsedExactlyWhenMentioned(e: Expr, name: string)
    ensures UsedIn(e, name) ==> name in Programs.MentionsE(e)
    ensures NoCalls(e) && name in Programs.MentionsE(e) ==> UsedIn(e, name)
    decreases e
  {
    match e
    case Unary(_, operand) => UsedExactlyWhenMentioned(operand, name);
    case Binary(l, _, r) =>
      UsedExactlyWhenMentioned(l, name);
      UsedExactlyWhenMentioned(r, name);
    case _ =>
  }
}
