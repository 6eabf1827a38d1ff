// The optimizer's pass as it works: one table searched and grown by loops, and marking sweeps
// over the tree for every version of every variable in it.
module SsaPass {
  import opened Ast
  import opened Ssa

  class Versions {
    var table: Table

    constructor ()
      ensures table == []
    {
      table := [];
    }

    /** The index of the entry of `name`, which is made if there is room; the length of the table
        when there is not. */
    method FindOrCreateVar(name: string) returns (index: nat)
      modifies this
      ensures table == FindOrCreate(old(table), name) && index == Find(table, name)
    {
      index := 0;
      while index < |table|
        invariant index <= |table| && table == old(table)
        invariant forall k :: 0 <= k < index ==> table[k].name != name
      {
        if table[index].name == name {
          ghost var found := Find(table, name);
          assert found == index;
          return;
        }
        index := index + 1;
      }
      ghost var absent := Find(table, name);
      assert absent == index;
      if |table| < MAX_SSA_VARS {
        table := table + [SsaVar(name, [], 0)];
        ghost var found := Find(table, name);
        assert table[index].name == name && found == index;
      }
    }

    method PushVersion(name: string) returns (version: int)
      modifies this
      ensures table == Push(old(table), name)
      ensures version >= 0 ==> Current(table, name) == version
    {
      var i := FindOrCreateVar(name);
      version := -1;
      if i < |table| && |table[i].versionStack| < MAX_VERSIONS {
        version := table[i].totalVersions;
        var entry := SsaVar(name, table[i].versionStack + [version], version + 1);
        FindUnaffected(table, table[i := entry], name);
        table := table[i := entry];
      }
    }

    method CurrentVersion(name: string) returns (version: int)
      modifies this
      ensures table == FindOrCreate(old(table), name) && version == Current(old(table), name)
    {
      var i := FindOrCreateVar(name);
      version := -1;
      if i < |table| && |table[i].versionStack| > 0 {
        version := table[i].versionStack[|table[i].versionStack| - 1];
      }
    }

    method TransformExpr(e: Expr) returns (r: Expr)
      modifies this
      ensures (r, table) == NumberE(e, old(table))
      decreases e
    {
      r := e;
      if e.Ident? {
        var version := CurrentVersion(e.name);
        r := e.(version := version);
      } else if e.Binary? {
        var left := TransformExpr(e.left);
        var right := TransformExpr(e.right);
        r := Binary(left, e.op, right);
      }
    }

    method Transform(s: Stmt) returns (r: Stmt)
      modifies this
      ensures (r, table) == NumberS(s, old(table))
      decreases s
    {
      r := s;
      match s {
        case Let(name, value, escapes) =>
          var value' := TransformExpr(value);
          var _ := PushVersion(name);
          r := Let(name, value', escapes);
        case Assign(name, source) =>
          var source' := TransformExpr(source);
          var _ := PushVersion(name);
          r := Assign(name, source');
        case Print(e) =>
          var e' := TransformExpr(e);
          r := Print(e');
        case While(c, b) =>
          var c' := TransformExpr(c);
          var b' := Transform(b);
          r := While(c', b');
        case Block(ss) =>
          var done: seq<Stmt> := [];
          var i := 0;
          while i < |ss|
            invariant i <= |ss| && (done, table) == NumberSs(ss[..i], old(table))
          {
            var next := Transform(ss[i]);
            assert ss[..i + 1][..i] == ss[..i];
            done := done + [next];
            i := i + 1;
          }
          assert ss[..i] == ss;
          r := Block(done);
        case Bare(e) =>
          var e' := TransformExpr(e);
          r := Bare(e');
        case _ =>
      }
    }
  }

  /** The sweep into an expression; `inLoop` forbids marking. */
  method MarkExprBackward(e: Expr, name: string, version: nat, found: bool, inLoop: bool) returns (r: Expr, f: bool)
    ensures (r, f) == if inLoop then (e, found) else MarkE(e, name, version, found)
    decreases e
  {
    r, f := e, found;
    if found {
      return;
    }
    match e {
      case Ident(n, v, _) =>
        if n == name && v == version && !inLoop {
          r, f := e.(lastUse := true), true;
        }
      case Binary(l, op, right) =>
        var right', f1 := MarkExprBackward(right, name, version, f, inLoop);
        var left', f2 := MarkExprBackward(l, name, version, f1, inLoop);
        r, f := Binary(left', op, right'), f2;
      case _ =>
    }
  }

  /** The sweep over a tree, the last statement first and the `else` branch before the `then` branch.
      Inside a loop whose condition uses the variable it goes on without marking, to the same effect
      as leaving the loop out. */
  method MarkBackward(s: Stmt, name: string, version: nat, found: bool, inLoop: bool) returns (r: Stmt, f: bool)
    ensures (r, f) == if inLoop then (s, found) else MarkS(s, name, version, found)
    decreases s
  {
    r, f := s, found;
    if found {
      return;
    }
    match s {
      case Let(n, value, escapes) =>
        var value', f1 := MarkExprBackward(value, name, version, f, inLoop);
        r, f := Let(n, value', escapes), f1;
      case Assign(n, source) =>
        var source', f1 := MarkExprBackward(source, name, version, f, inLoop);
        r, f := Assign(n, source'), f1;
      case Print(e) =>
        var e', f1 := MarkExprBackward(e, name, version, f, inLoop);
        r, f := Print(e'), f1;
      case If(c, t, e) =>
        var e' := e;
        if e.Some? {
          var other, f1 := MarkBackward(e.value, name, version, f, inLoop);
          e', f := Some(other), f1;
        }
        var t', f2 := MarkBackward(t, name, version, f, inLoop);
        var c', f3 := MarkExprBackward(c, name, version, f2, inLoop);
        r, f := If(c', t', e'), f3;
      case While(c, b) =>
        var within := inLoop || UsedIn(c, name);
        var b', f1 := MarkBackward(b, name, version, f, within);
        var c', f2 := MarkExprBackward(c, name, version, f1, within);
        r, f := While(c', b'), f2;
      case Block(ss) =>
        var ss', f1 := MarkBlock(ss, name, version, inLoop);
        r, f := Block(ss'), f1;
      case Bare(e) =>
        var e', f1 := MarkExprBackward(e, name, version, f, inLoop);
        r, f := Bare(e'), f1;
      case _ =>
    }
  }

  method MarkBlock(ss: seq<Stmt>, name: string, version: nat, inLoop: bool) returns (r: seq<Stmt>, f: bool)
    ensures (r, f) == if inLoop then (ss, false) else MarkSs(ss, name, version, false)
    decreases ss
  {
    r, f := [], false;
    var i := |ss|;
    ghost var all := MarkSs(ss, name, version, false);
    assert ss[..i] == ss && all.0 + [] == all.0;
    while i > 0 && !f
      invariant i <= |ss|
      invariant if inLoop then r == ss[i..] && !f else Swept(ss, i, r, f, name, version)
    {
      var last, f1 := MarkBackward(ss[i - 1], name, version, f, inLoop);
      if !inLoop {
        SweptOn(ss, i, r, name, version);
      }
      r, f := [last] + r, f1;
      i := i - 1;
    }
    if f {
      MarkFoundIsIdentity(ss[..i], name, version);
    } else {
      assert ss[..i] == [] && ss[..i] + ss[i..] == ss;
    }
    r := ss[..i] + r;
  }

  /** The statements from `i` on are done: what is left is the sweep over those before. */
  ghost predicate Swept(ss: seq<Stmt>, i: nat, r: seq<Stmt>, f: bool, name: string, version: nat)
    requires i <= |ss|
  {
    var rest := MarkSs(ss[..i], name, version, f);
    MarkSs(ss, name, version, false) == (rest.0 + r, rest.1)
  }

  lemma SweptOn(ss: seq<Stmt>, i: nat, r: seq<Stmt>, name: string, version: nat)
    requires 0 < i <= |ss| && Swept(ss, i, r, false, name, version)
    ensures var (last, f) := MarkS(ss[i - 1], name, version, false);
            Swept(ss, i - 1, [last] + r, f, name, version)
  {
    var (last, f) := MarkS(ss[i - 1], name, version, false);
    assert ss[..i][..i - 1] == ss[..i - 1];
    var front := MarkSs(ss[..i - 1], name, version, f).0;
    assert front + [last] + r == front + ([last] + r);
  }

  method AnalyzeLiveness(s: Stmt, table: Table) returns (r: Stmt)
    ensures r == MarkVars(s, table)
  {
    r := s;
    for i := 0 to |table|
      invariant r == MarkVars(s, table[..i])
    {
      ghost var before := r;
      for v := 0 to table[i].totalVersions
        invariant r == MarkVersions(before, table[i].name, v)
      {
        var found := false;
        r, found := MarkBackward(r, table[i].name, v, found, false);
      }
      assert table[..i + 1][..i] == table[..i];
    }
    assert table[..|table|] == table;
  }

  /** The two phases in the order the driver runs them. */
  method AnnotateTree(s: Stmt) returns (r: Stmt)
    ensures r == Annotate(s)
  {
    var versions := new Versions();
    var numbered := versions.Transform(s);
    r := AnalyzeLiveness(numbered, versions.table);
  }
}
