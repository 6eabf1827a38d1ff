// Version numbering and last-use marking, as the optimizer performs them.
module Ssa {
  import opened Ast

  const MAX_SSA_VARS: nat := 100
  const MAX_VERSIONS: nat := 10

  datatype SsaVar = SsaVar(name: string, versionStack: seq<nat>, totalVersions: nat)

  type Table = seq<SsaVar>

  function Find(t: Table, name: string): (i: nat)
    ensures i <= |t|
    ensures i < |t| ==> t[i].name == name
    ensures forall k :: 0 <= k < i ==> t[k].name != name
  {
    if |t| == 0 || t[0].name == name then 0 else 1 + Find(t[1..], name)
  }

  /** A full table turns new names away. */
  function FindOrCreate(t: Table, name: string): Table {
    if Find(t, name) < |t| || |t| >= MAX_SSA_VARS then t else t + [SsaVar(name, [], 0)]
  }

  function Push(t: Table, name: string): Table {
    var t' := FindOrCreate(t, name);
    var i := Find(t', name);
    if i < |t'| && |t'[i].versionStack| < MAX_VERSIONS then
      t'[i := SsaVar(name, t'[i].versionStack + [t'[i].totalVersions], t'[i].totalVersions + 1)]
    else t'
  }

  /** The version a use of `name` gets; -1 when there is none. */
  function Current(t: Table, name: string): int {
    var i := Find(t, name);
    if i < |t| && |t[i].versionStack| > 0 then t[i].versionStack[|t[i].versionStack| - 1] else -1
  }

  // ---- Numbering ----

  function NumberE(e: Expr, t: Table): (Expr, Table) {
    match e
    case Ident(name, _, lastUse) => (Ident(name, Current(t, name), lastUse), FindOrCreate(t, name))
    case Binary(l, op, r) =>
      var (l', t1) := NumberE(l, t);
      var (r', t2) := NumberE(r, t1);
      (Binary(l', op, r'), t2)
    case _ => (e, t)
  }

  function NumberS(s: Stmt, t: Table): (Stmt, Table) {
    match s
    case Let(name, value, escapes) =>
      var (value', t1) := NumberE(value, t);
      (Let(name, value', escapes), Push(t1, name))
    case Assign(name, source) =>
      var (source', t1) := NumberE(source, t);
      (Assign(name, source'), Push(t1, name))
    case Print(e) =>
      var (e', t1) := NumberE(e, t);
      (Print(e'), t1)
    case While(c, b) =>
      var (c', t1) := NumberE(c, t);
      var (b', t2) := NumberS(b, t1);
      (While(c', b'), t2)
    case Block(ss) =>
      var (ss', t1) := NumberSs(ss, t);
      (Block(ss'), t1)
    case Bare(e) =>
      var (e', t1) := NumberE(e, t);
      (Bare(e'), t1)
    case _ => (s, t)
  }

  function NumberSs(ss: seq<Stmt>, t: Table): (r: (seq<Stmt>, Table))
    ensures |r.0| == |ss|
  {
    if ss == [] then ([], t)
    else
      var (front, t1) := NumberSs(ss[..|ss| - 1], t);
      var (last, t2) := NumberS(ss[|ss| - 1], t1);
      (front + [last], t2)
  }

  // ---- Marking: backwards through straight-line code ----

  /** Marks the last use of the given version that is not behind an earlier find. */
  function MarkE(e: Expr, name: string, version: nat, found: bool): (Expr, bool) {
    if found then (e, true)
    else
      match e
      case Ident(n, v, lastUse) =>
        if n == name && v == version then (Ident(n, v, true), true) else (e, false)
      case Binary(l, op, r) =>
        var (r', found1) := MarkE(r, name, version, false);
        var (l', found2) := MarkE(l, name, version, found1);
        (Binary(l', op, r'), found2)
      case _ => (e, false)
  }

  /** The variable is used in a condition. */
  predicate UsedIn(e: Expr, name: string) {
    match e
    case Ident(n, _, _) => n == name
    case Unary(_, operand) => UsedIn(operand, name)
    case Binary(l, _, r) => UsedIn(l, name) || UsedIn(r, name)
    case _ => false
  }

  /** A loop whose condition uses the variable is left as it is. */
  function MarkS(s: Stmt, name: string, version: nat, found: bool): (Stmt, bool) {
    if found then (s, true)
    else
      match s
      case Let(n, value, escapes) =>
        var (value', f) := MarkE(value, name, version, false);
        (Let(n, value', escapes), f)
      case Assign(n, source) =>
        var (source', f) := MarkE(source, name, version, false);
        (Assign(n, source'), f)
      case Print(e) =>
        var (e', f) := MarkE(e, name, version, false);
        (Print(e'), f)
      case If(c, t, e) =>
        var (e', f1) := if e.Some? then Wrap(MarkS(e.value, name, version, false)) else (None, false);
        var (t', f2) := MarkS(t, name, version, f1);
        var (c', f3) := MarkE(c, name, version, f2);
        (If(c', t', e'), f3)
      case While(c, b) =>
        if UsedIn(c, name) then (s, false)
        else
          var (b', f1) := MarkS(b, name, version, false);
          var (c', f2) := MarkE(c, name, version, f1);
          (While(c', b'), f2)
      case Block(ss) =>
        var (ss', f) := MarkSs(ss, name, version, false);
        (Block(ss'), f)
      case Bare(e) =>
        var (e', f) := MarkE(e, name, version, false);
        (Bare(e'), f)
      case _ => (s, false)
  }

  function Wrap(p: (Stmt, bool)): (Option<Stmt>, bool) {
    (Some(p.0), p.1)
  }

  function MarkSs(ss: seq<Stmt>, name: string, version: nat, found: bool): (r: (seq<Stmt>, bool))
    ensures |r.0| == |ss|
  {
    if ss == [] then ([], found)
    else
      var (last, f1) := MarkS(ss[|ss| - 1], name, version, found);
      var (front, f2) := MarkSs(ss[..|ss| - 1], name, version, f1);
      (front + [last], f2)
  }

  /** Operators over literals and identifiers. */
  predicate Plain(e: Expr) {
    match e
    case Number(_) => true
    case Text(_) => true
    case Boolean(_) => true
    case Ident(_, _, _) => true
    case Binary(l, _, r) => Plain(l) && Plain(r)
    case _ => false
  }

  /** Nested blocks of declarations, assignments and prints. */
  predicate Straight(s: Stmt) {
    match s
    case Let(_, value, _) => Plain(value)
    case Assign(_, source) => Plain(source)
    case Print(e) => Plain(e)
    case Block(ss) => StraightSs(ss)
    case _ => false
  }

  predicate StraightSs(ss: seq<Stmt>) {
    ss == [] || (StraightSs(ss[..|ss| - 1]) && Straight(ss[|ss| - 1]))
  }

  // ---- Both passes read off the sequence of uses and definitions ----

  datatype Event = Use(name: string, version: int, marked: bool) | Def(name: string)

  function EventsE(e: Expr): seq<Event> {
    match e
    case Ident(name, version, lastUse) => [Use(name, version, lastUse)]
    case Binary(l, _, r) => EventsE(l) + EventsE(r)
    case _ => []
  }

  function EventsS(s: Stmt): seq<Event> {
    match s
    case Let(name, value, _) => EventsE(value) + [Def(name)]
    case Assign(name, source) => EventsE(source) + [Def(name)]
    case Print(e) => EventsE(e)
    case Block(ss) => EventsSs(ss)
    case _ => []
  }

  function EventsSs(ss: seq<Stmt>): seq<Event> {
    if ss == [] then [] else EventsSs(ss[..|ss| - 1]) + EventsS(ss[|ss| - 1])
  }

  function After(ev: seq<Event>, t: Table): Table {
    if ev == [] then t
    else
      var t' := After(ev[..|ev| - 1], t);
      match ev[|ev| - 1]
      case Use(name, _, _) => FindOrCreate(t', name)
      case Def(name) => Push(t', name)
  }

  /** `ev` is `bare` with every use carrying the version current at its place. */
  ghost predicate Numbered(bare: seq<Event>, ev: seq<Event>, t: Table) {
    && |ev| == |bare|
    && forall i :: 0 <= i < |ev| ==>
         ev[i] == if bare[i].Use? then bare[i].(version := Current(After(bare[..i], t), bare[i].name)) else bare[i]
  }

  lemma {:induction false} AfterAppend(a: seq<Event>, b: seq<Event>, t: Table)
    ensures After(a + b, t) == After(b, After(a, t))
    decreases |b|
  {
    if b == [] {
      assert a + b == a;
    } else {
      assert (a + b)[..|a + b| - 1] == a + b[..|b| - 1];
      AfterAppend(a, b[..|b| - 1], t);
    }
  }

  lemma NumberedAppend(a: seq<Event>, a': seq<Event>, b: seq<Event>, b': seq<Event>, t: Table)
    requires Numbered(a, a', t) && Numbered(b, b', After(a, t))
    ensures Numbered(a + b, a' + b', t)
  {
    forall i | 0 <= i < |a + b|
      ensures var bare := (a + b)[i];
              (a' + b')[i]
              == if bare.Use? then bare.(version := Current(After((a + b)[..i], t), bare.name)) else bare
    {
      if i < |a| {
        assert (a + b)[..i] == a[..i];
      } else {
        assert (a + b)[..i] == a + b[..i - |a|];
        AfterAppend(a, b[..i - |a|], t);
      }
    }
  }

  ghost predicate NumberedE(e: Expr, e': Expr, t: Table, t': Table) {
    Plain(e') && Numbered(EventsE(e), EventsE(e'), t) && t' == After(EventsE(e), t)
  }

  lemma {:induction false} NumberEEvents(e: Expr, t: Table)
    requires Plain(e)
    ensures NumberedE(e, NumberE(e, t).0, t, NumberE(e, t).1)
    decreases e
  {
    match e
    case Ident(name, _, _) =>
      assert EventsE(e)[..0] == [];
      assert After(EventsE(e), t) == FindOrCreate(After([], t), name);
    case Binary(l, op, r) =>
      var (l', t1) := NumberE(l, t);
      var (r', t2) := NumberE(r, t1);
      NumberEEvents(l, t);
      NumberEEvents(r, t1);
      NumberedBinary(l, op, r, l', r', t, t1, t2);
    case _ =>
  }

  lemma {:induction false} NumberedBinary(l: Expr, op: BinaryOp, r: Expr, l': Expr, r': Expr, t: Table, t1: Table,
                                          t2: Table)
    requires NumberedE(l, l', t, t1) && NumberedE(r, r', t1, t2)
    ensures NumberedE(Binary(l, op, r), Binary(l', op, r'), t, t2)
  {
    NumberedAppend(EventsE(l), EventsE(l'), EventsE(r), EventsE(r'), t);
    AfterAppend(EventsE(l), EventsE(r), t);
  }

  lemma {:induction false} NumberSEvents(s: Stmt, t: Table)
    requires Straight(s)
    ensures var (s', t') := NumberS(s, t);
            Straight(s') && Numbered(EventsS(s), EventsS(s'), t) && t' == After(EventsS(s), t)
    decreases s
  {
    match s
    case Let(name, value, _) => DefEvents(value, name, t);
    case Assign(name, source) => DefEvents(source, name, t);
    case Print(e) => NumberEEvents(e, t);
    case Block(ss) => NumberSsEvents(ss, t);
  }

  lemma DefEvents(e: Expr, name: string, t: Table)
    requires Plain(e)
    ensures var (e', t') := NumberE(e, t);
            && Plain(e') && Numbered(EventsE(e) + [Def(name)], EventsE(e') + [Def(name)], t)
            && Push(t', name) == After(EventsE(e) + [Def(name)], t)
  {
    var (e', t') := NumberE(e, t);
    NumberEEvents(e, t);
    NumberedAppend(EventsE(e), EventsE(e'), [Def(name)], [Def(name)], t);
    assert (EventsE(e) + [Def(name)])[..|EventsE(e)|] == EventsE(e);
  }

  lemma {:induction false} NumberSsEvents(ss: seq<Stmt>, t: Table)
    requires StraightSs(ss)
    ensures var (ss', t') := NumberSs(ss, t);
            StraightSs(ss') && Numbered(EventsSs(ss), EventsSs(ss'), t) && t' == After(EventsSs(ss), t)
    decreases ss
  {
    if ss != [] {
      var front, last := ss[..|ss| - 1], ss[|ss| - 1];
      var (front', t1) := NumberSs(front, t);
      var (last', t2) := NumberS(last, t1);
      NumberSsEvents(front, t);
      NumberSEvents(last, t1);
      NumberedAppend(EventsSs(front), EventsSs(front'), EventsS(last), EventsS(last'), t);
      AfterAppend(EventsSs(front), EventsS(last), t);
      assert (front' + [last'])[..|ss| - 1] == front';
    }
  }

  // ---- A version lives until the next definition ----

  lemma {:induction false} FindUnaffected(t: Table, u: Table, name: string)
    requires |u| >= |t| && Find(t, name) < |t|
    requires forall i :: 0 <= i < |t| ==> u[i].name == t[i].name
    ensures Find(u, name) == Find(t, name)
  {
  }

  lemma CreateKeepsCurrent(t: Table, other: string, name: string)
    requires Current(t, name) >= 0
    ensures Current(FindOrCreate(t, other), name) == Current(t, name)
  {
    FindUnaffected(t, FindOrCreate(t, other), name);
  }

  lemma PushKeepsCurrent(t: Table, other: string, name: string)
    requires Current(t, name) >= 0 && other != name
    ensures Current(Push(t, other), name) == Current(t, name)
  {
    CreateKeepsCurrent(t, other, name);
    FindUnaffected(t, FindOrCreate(t, other), name);
    FindUnaffected(t, Push(t, other), name);
  }

  lemma {:induction false} VersionLives(bare: seq<Event>, t: Table, name: string, i: nat, j: nat)
    requires i <= j <= |bare| && Current(After(bare[..i], t), name) >= 0
    requires forall k :: i <= k < j ==> bare[k] != Def(name)
    ensures Current(After(bare[..j], t), name) == Current(After(bare[..i], t), name)
    decreases j
  {
    if i < j {
      VersionLives(bare, t, name, i, j - 1);
      assert bare[..j][..j - 1] == bare[..j - 1];
      match bare[j - 1]
      case Use(other, _, _) => CreateKeepsCurrent(After(bare[..j - 1], t), other, name);
      case Def(other) => PushKeepsCurrent(After(bare[..j - 1], t), other, name);
    }
  }

  // ---- Marks sit on last uses ----

  predicate Matches(x: Event, name: string, version: int) {
    x.Use? && x.name == name && x.version == version
  }

  ghost predicate NoMatch(ev: seq<Event>, name: string, version: int) {
    forall i :: 0 <= i < |ev| ==> !Matches(ev[i], name, version)
  }

  /** `after` is `ev` with the last match marked, and `found` tells whether there was one. */
  ghost predicate MarkedLast(ev: seq<Event>, after: seq<Event>, name: string, version: int, found: bool) {
    if found then
      exists i :: 0 <= i < |ev| && Matches(ev[i], name, version) && NoMatch(ev[i + 1..], name, version)
                  && after == ev[i := ev[i].(marked := true)]
    else NoMatch(ev, name, version) && after == ev
  }

  lemma MarkedAppend(a: seq<Event>, a': seq<Event>, fa: bool, b: seq<Event>, b': seq<Event>, fb: bool,
                     name: string, version: int)
    requires MarkedLast(b, b', name, version, fb)
    requires if fb then a' == a && fa else MarkedLast(a, a', name, version, fa)
    ensures MarkedLast(a + b, a' + b', name, version, fa)
  {
    if fb {
      var i :| 0 <= i < |b| && Matches(b[i], name, version) && NoMatch(b[i + 1..], name, version)
               && b' == b[i := b[i].(marked := true)];
      var j := |a| + i;
      assert (a + b)[j + 1..] == b[i + 1..];
      assert Matches((a + b)[j], name, version);
      assert a' + b' == (a + b)[j := (a + b)[j].(marked := true)];
    } else if fa {
      var i :| 0 <= i < |a| && Matches(a[i], name, version) && NoMatch(a[i + 1..], name, version)
               && a' == a[i := a[i].(marked := true)];
      assert (a + b)[i + 1..] == a[i + 1..] + b;
      NoMatchAppend(a[i + 1..], b, name, version);
      assert Matches((a + b)[i], name, version);
      assert a' + b' == (a + b)[i := (a + b)[i].(marked := true)];
    } else {
      NoMatchAppend(a, b, name, version);
    }
  }

  lemma NoMatchAppend(a: seq<Event>, b: seq<Event>, name: string, version: int)
    requires NoMatch(a, name, version) && NoMatch(b, name, version)
    ensures NoMatch(a + b, name, version)
  {
  }

  lemma {:induction false} MarkEEvents(e: Expr, name: string, version: nat)
    requires Plain(e)
    ensures var (e', found) := MarkE(e, name, version, false);
            Plain(e') && MarkedLast(EventsE(e), EventsE(e'), name, version, found)
    decreases e
  {
    match e
    case Ident(n, v, _) =>
      if n == name && v == version {
        assert Matches(EventsE(e)[0], name, version) && NoMatch(EventsE(e)[1..], name, version);
        assert EventsE(MarkE(e, name, version, false).0) == EventsE(e)[0 := EventsE(e)[0].(marked := true)];
      }
    case Binary(l, op, r) =>
      var (r', fr) := MarkE(r, name, version, false);
      var (l', fl) := MarkE(l, name, version, fr);
      MarkEEvents(r, name, version);
      MarkEEvents(l, name, version);
      MarkedAppend(EventsE(l), EventsE(l'), fl, EventsE(r), EventsE(r'), fr, name, version);
    case _ =>
  }

  lemma {:induction false} MarkSEvents(s: Stmt, name: string, version: nat)
    requires Straight(s)
    ensures var (s', found) := MarkS(s, name, version, false);
            Straight(s') && MarkedLast(EventsS(s), EventsS(s'), name, version, found)
    decreases s
  {
    match s
    case Let(n, value, _) => MarkDefEvents(value, n, name, version);
    case Assign(n, source) => MarkDefEvents(source, n, name, version);
    case Print(e) => MarkEEvents(e, name, version);
    case Block(ss) => MarkSsEvents(ss, name, version);
  }

  lemma MarkDefEvents(e: Expr, n: string, name: string, version: nat)
    requires Plain(e)
    ensures var (e', found) := MarkE(e, name, version, false);
            Plain(e') && MarkedLast(EventsE(e) + [Def(n)], EventsE(e') + [Def(n)], name, version, found)
  {
    var (e', found) := MarkE(e, name, version, false);
    MarkEEvents(e, name, version);
    MarkedAppend(EventsE(e), EventsE(e'), found, [Def(n)], [Def(n)], false, name, version);
  }

  lemma {:induction false} MarkSsEvents(ss: seq<Stmt>, name: string, version: nat)
    requires StraightSs(ss)
    ensures var (ss', found) := MarkSs(ss, name, version, false);
            StraightSs(ss') && MarkedLast(EventsSs(ss), EventsSs(ss'), name, version, found)
    decreases ss
  {
    if ss != [] {
      var front, last := ss[..|ss| - 1], ss[|ss| - 1];
      var (last', f1) := MarkS(last, name, version, false);
      var (front', f2) := MarkSs(front, name, version, f1);
      MarkSEvents(last, name, version);
      if f1 {
        MarkFoundIsIdentity(front, name, version);
      } else {
        MarkSsEvents(front, name, version);
      }
      MarkedAppend(EventsSs(front), EventsSs(front'), f2, EventsS(last), EventsS(last'), f1, name, version);
      assert (front' + [last'])[..|ss| - 1] == front';
    }
  }

  lemma {:induction false} MarkFoundIsIdentity(ss: seq<Stmt>, name: string, version: nat)
    ensures MarkSs(ss, name, version, true) == (ss, true)
    decreases ss
  {
    if ss != [] {
      MarkFoundIsIdentity(ss[..|ss| - 1], name, version);
      assert ss[..|ss| - 1] + [ss[|ss| - 1]] == ss;
    }
  }

  // ---- Loops ----

  /** `after` is `s` but for marks, and every loop whose condition uses the variable is the same. */
  predicate Spares(s: Stmt, after: Stmt, name: string) {
    match s
    case If(_, t, e) =>
      && after.If? && Spares(t, after.thenBranch, name) && (e.Some? <==> after.elseBranch.Some?)
      && (e.Some? ==> Spares(e.value, after.elseBranch.value, name))
    case While(c, b) =>
      if UsedIn(c, name) then after == s
      else after.While? && Spares(b, after.loopBody, name)
    case Block(ss) => after.Block? && SparesSs(ss, after.statements, name)
    case _ => Marks(s) || after == s
  }

  predicate SparesSs(ss: seq<Stmt>, after: seq<Stmt>, name: string) {
    && |ss| == |after|
    && (ss == [] || (SparesSs(ss[..|ss| - 1], after[..|ss| - 1], name) && Spares(ss[|ss| - 1], after[|ss| - 1], name)))
  }

  /** Statements with an expression that a sweep looks into. */
  predicate Marks(s: Stmt) {
    s.Let? || s.Assign? || s.Print? || s.Bare?
  }

  lemma {:induction false} SparesSelf(s: Stmt, name: string)
    ensures Spares(s, s, name)
    decreases s
  {
    match s
    case If(_, t, e) =>
      SparesSelf(t, name);
      if e.Some? {
        SparesSelf(e.value, name);
      }
    case While(_, b) => SparesSelf(b, name);
    case Block(ss) => SparesSsSelf(ss, name);
    case _ =>
  }

  lemma {:induction false} SparesSsSelf(ss: seq<Stmt>, name: string)
    ensures SparesSs(ss, ss, name)
    decreases ss
  {
    if ss != [] {
      SparesSsSelf(ss[..|ss| - 1], name);
      SparesSelf(ss[|ss| - 1], name);
    }
  }

  /** However deep a loop is, a variable that its condition uses is not marked inside it. */
  lemma {:induction false} ConditionsKeepVariables(s: Stmt, name: string, version: nat, found: bool)
    ensures Spares(s, MarkS(s, name, version, found).0, name)
    decreases s
  {
    if found {
      SparesSelf(s, name);
      return;
    }
    match s
    case If(_, t, e) =>
      var f := e.Some? && MarkS(e.value, name, version, false).1;
      ConditionsKeepVariables(t, name, version, f);
      if e.Some? {
        ConditionsKeepVariables(e.value, name, version, false);
      }
    case While(_, b) => ConditionsKeepVariables(b, name, version, false);
    case Block(ss) => SsConditionsKeepVariables(ss, name, version, false);
    case _ =>
  }

  lemma {:induction false} SsConditionsKeepVariables(ss: seq<Stmt>, name: string, version: nat, found: bool)
    ensures SparesSs(ss, MarkSs(ss, name, version, found).0, name)
    decreases ss
  {
    if ss != [] {
      var (last, f1) := MarkS(ss[|ss| - 1], name, version, found);
      var (front, f2) := MarkSs(ss[..|ss| - 1], name, version, f1);
      ConditionsKeepVariables(ss[|ss| - 1], name, version, found);
      SsConditionsKeepVariables(ss[..|ss| - 1], name, version, f1);
      assert (front + [last])[..|ss| - 1] == front;
    }
  }

  // ---- The liveness pass ----

  lemma MarkKeepsStraight(s: Stmt, name: string, version: nat)
    ensures Straight(s) ==> Straight(MarkS(s, name, version, false).0)
  {
    if Straight(s) {
      MarkSEvents(s, name, version);
    }
  }

  lemma NumberKeepsStraight(s: Stmt, t: Table)
    ensures Straight(s) ==> Straight(NumberS(s, t).0)
  {
    if Straight(s) {
      NumberSEvents(s, t);
    }
  }

  /** One marking sweep for each of the first `n` versions of `name`. */
  function MarkVersions(s: Stmt, name: string, n: nat): (r: Stmt)
    ensures Straight(s) ==> Straight(r)
  {
    if n == 0 then s
    else
      var s' := MarkVersions(s, name, n - 1);
      MarkKeepsStraight(s', name, n - 1);
      MarkS(s', name, n - 1, false).0
  }

  function MarkVars(s: Stmt, t: Table): (r: Stmt)
    ensures Straight(s) ==> Straight(r)
  {
    if t == [] then s
    else MarkVersions(MarkVars(s, t[..|t| - 1]), t[|t| - 1].name, t[|t| - 1].totalVersions)
  }

  /** Numbering and then liveness: the tree that reaches the compiler. */
  function Annotate(s: Stmt): (r: Stmt)
    ensures Straight(s) ==> Straight(r)
  {
    var (s', t) := NumberS(s, []);
    NumberKeepsStraight(s, []);
    MarkVars(s', t)
  }

  ghost predicate EndsVersion(ev: seq<Event>, i: nat)
    requires i < |ev|
  {
    ev[i].Use? && ev[i].marked ==> ev[i].version >= 0 && NoMatch(ev[i + 1..], ev[i].name, ev[i].version)
  }

  /** Every marked use is the last one of its version. */
  ghost predicate MarksEndVersions(ev: seq<Event>) {
    forall i :: 0 <= i < |ev| ==> EndsVersion(ev, i)
  }

  predicate SameButMark(x: Event, y: Event) {
    x == y || (x.Use? && y.Use? && x.name == y.name && x.version == y.version)
  }

  ghost predicate SameButMarks(a: seq<Event>, b: seq<Event>) {
    |a| == |b| && forall i :: 0 <= i < |a| ==> SameButMark(a[i], b[i])
  }

  lemma MarkingKeepsEnds(ev: seq<Event>, after: seq<Event>, name: string, version: nat, found: bool)
    requires MarksEndVersions(ev) && MarkedLast(ev, after, name, version, found)
    ensures MarksEndVersions(after) && SameButMarks(ev, after)
  {
    forall i | 0 <= i < |after|
      ensures EndsVersion(after, i)
    {
      assert EndsVersion(ev, i);
      if after[i].Use? && after[i].marked {
        var tail, tail' := ev[i + 1..], after[i + 1..];
        forall j | 0 <= j < |tail'|
          ensures !Matches(tail'[j], after[i].name, after[i].version)
        {
          assert SameButMark(tail[j], tail'[j]);
          if ev[i].marked {
            assert !Matches(tail[j], ev[i].name, ev[i].version);
          }
        }
      }
    }
  }

  lemma {:induction false} MarkVersionsKeepsEnds(s: Stmt, name: string, n: nat)
    requires Straight(s) && MarksEndVersions(EventsS(s))
    ensures var after := EventsS(MarkVersions(s, name, n)); MarksEndVersions(after) && SameButMarks(EventsS(s), after)
    decreases n
  {
    if n > 0 {
      var s' := MarkVersions(s, name, n - 1);
      MarkVersionsKeepsEnds(s, name, n - 1);
      MarkSEvents(s', name, n - 1);
      MarkingKeepsEnds(EventsS(s'), EventsS(MarkS(s', name, n - 1, false).0), name, n - 1,
                       MarkS(s', name, n - 1, false).1);
    }
  }

  lemma {:induction false} MarkVarsKeepsEnds(s: Stmt, t: Table)
    requires Straight(s) && MarksEndVersions(EventsS(s))
    ensures var after := EventsS(MarkVars(s, t)); MarksEndVersions(after) && SameButMarks(EventsS(s), after)
    decreases |t|
  {
    if t != [] {
      MarkVarsKeepsEnds(s, t[..|t| - 1]);
      MarkVersionsKeepsEnds(MarkVars(s, t[..|t| - 1]), t[|t| - 1].name, t[|t| - 1].totalVersions);
    }
  }

  /** Between a marked use and any later use of the same name there is a definition of it. */
  ghost predicate LastUsesAreLast(ev: seq<Event>) {
    forall i, j :: 0 <= i < j < |ev| && ev[i].Use? && ev[i].marked && ev[j].Use? && ev[j].name == ev[i].name ==>
      Def(ev[i].name) in ev[i..j]
  }

  ghost predicate Unmarked(ev: seq<Event>) {
    forall i :: 0 <= i < |ev| && ev[i].Use? ==> !ev[i].marked
  }

  /** Whatever the size of the program, and also once the tables of the pass are full, a use that
      the pass marks as last is never followed by another use of the same value. */
  lemma AnnotatedLastUsesAreLast(s: Stmt)
    requires Straight(s) && Unmarked(EventsS(s))
    ensures LastUsesAreLast(EventsS(Annotate(s)))
  {
    var (s', t) := NumberS(s, []);
    var bare, numbered, ev := EventsS(s), EventsS(s'), EventsS(Annotate(s));
    NumberSEvents(s, []);
    assert MarksEndVersions(numbered);
    MarkVarsKeepsEnds(s', t);
    forall i, j | 0 <= i < j < |ev| && ev[i].Use? && ev[i].marked && ev[j].Use? && ev[j].name == ev[i].name
      ensures Def(ev[i].name) in ev[i..j]
    {
      assert SameButMark(numbered[i], ev[i]) && SameButMark(numbered[j], ev[j]);
      assert ev[j] == ev[i + 1..][j - i - 1];
      assert EndsVersion(ev, i);
      if Def(ev[i].name) !in ev[i..j] {
        SameVersionBetween(bare, numbered, ev, ev[i].name, i, j);
      }
    }
  }

  lemma SameVersionBetween(bare: seq<Event>, numbered: seq<Event>, ev: seq<Event>, name: string, i: nat, j: nat)
    requires Numbered(bare, numbered, []) && SameButMarks(numbered, ev) && i < j < |ev|
    requires ev[i].Use? && ev[i].name == name && ev[i].version >= 0 && ev[j].Use? && ev[j].name == name
    requires Def(name) !in ev[i..j]
    ensures ev[j].version == ev[i].version
  {
    assert SameButMark(numbered[i], ev[i]) && SameButMark(numbered[j], ev[j]);
    forall k | i <= k < j
      ensures bare[k] != Def(name)
    {
      assert SameButMark(numbered[k], ev[k]) && ev[k] == ev[i..j][k - i];
    }
    VersionLives(bare, [], name, i, j);
  }
}
