/**
 * The target names of namespace aliases, using-directives and
 * using-declarations.
 *
 * The declaration's cursor is visited in preorder.  The visit is given
 * here as the sequence of cursors it produces.  Each record holds:
 *  - whether the visited cursor is a reference;
 *  - the kind of the cursor it refers to;
 *  - that cursor's spelling;
 *  - that cursor's enclosing scope.
 * The names and comments, which come from libclang, are parameters.
 */
module CppNamespace {

  /** Kind of the cursor a visited reference refers to; only an overloaded
      declaration reference matters to the visit. */
  datatype ReferencedKind = OverloadedDeclRef | OtherKind

  /** One cursor of the preorder visit under the declaration. */
  datatype Visited = Visited(isReference: bool, referenced: ReferencedKind, spelling: string, scope: string)

  // ---------------------------------------------------------------------------
  // How far the visit goes
  // ---------------------------------------------------------------------------

  /** Number of cursors the visit reaches: all of them, or up to and
      including the first that refers to an overloaded declaration. */
  function VisitCount(vs: seq<Visited>): (n: nat)
    ensures n <= |vs| && (n == 0 <==> vs == [])
    ensures forall j :: 0 <= j < n - 1 ==> vs[j].referenced != OverloadedDeclRef
    ensures n < |vs| ==> vs[n - 1].referenced == OverloadedDeclRef
    ensures n == |vs| && n > 0 && vs[n - 1].referenced != OverloadedDeclRef ==>
      forall j :: 0 <= j < |vs| ==> vs[j].referenced != OverloadedDeclRef
  {
    if vs == [] then 0
    else if vs[0].referenced == OverloadedDeclRef then 1
    else 1 + VisitCount(vs[1..])
  }

  /** The cursors the visit reaches. */
  function Reached(vs: seq<Visited>): seq<Visited>
  {
    vs[..VisitCount(vs)]
  }

  /** Every reached cursor is a reference, as the visitor asserts. */
  predicate ReferencesOnly(vs: seq<Visited>)
  {
    forall j :: 0 <= j < VisitCount(vs) ==> vs[j].isReference
  }

  /** Nothing after the first overloaded declaration reference is visited:
      appending cursors after it changes neither what is reached nor how
      far the visit goes. */
  lemma StopsAtOverload(vs: seq<Visited>, rest: seq<Visited>)
    requires exists j :: 0 <= j < |vs| && vs[j].referenced == OverloadedDeclRef
    ensures VisitCount(vs + rest) == VisitCount(vs)
    ensures Reached(vs + rest) == Reached(vs)
  {
    var j :| 0 <= j < |vs| && vs[j].referenced == OverloadedDeclRef;
    CountStopsAt(vs, rest, j);
    assert (vs + rest)[..VisitCount(vs)] == vs[..VisitCount(vs)];
  }

  lemma {:induction false} CountStopsAt(vs: seq<Visited>, rest: seq<Visited>, j: nat)
    requires j < |vs| && vs[j].referenced == OverloadedDeclRef
    ensures VisitCount(vs + rest) == VisitCount(vs)
    decreases j
  {
    assert (vs + rest)[0] == vs[0];
    if vs[0].referenced != OverloadedDeclRef {
      assert vs[1..][j - 1] == vs[j];
      CountStopsAt(vs[1..], rest, j - 1);
      assert (vs + rest)[1..] == vs[1..] + rest;
    }
  }

  /** Without an overloaded declaration reference the visit reaches every
      cursor. */
  lemma ReachesAll(vs: seq<Visited>)
    requires forall j :: 0 <= j < |vs| ==> vs[j].referenced != OverloadedDeclRef
    ensures Reached(vs) == vs
  {
  }

  // ---------------------------------------------------------------------------
  // Joining spellings with "::"
  // ---------------------------------------------------------------------------

  /** The spellings of the given cursors, in order. */
  function Spellings(vs: seq<Visited>): (names: seq<string>)
    ensures |names| == |vs| && forall j :: 0 <= j < |vs| ==> names[j] == vs[j].spelling
  {
    seq(|vs|, j requires 0 <= j < |vs| => vs[j].spelling)
  }

  /** One step of the fold: a separator only once something has been
      accumulated. */
  function AppendName(acc: string, name: string): string
  {
    if acc == [] then name else acc + "::" + name
  }

  /** The fold of AppendName over the names, left to right. */
  function Join(names: seq<string>): string
  {
    if names == [] then [] else AppendName(Join(names[..|names| - 1]), names[|names| - 1])
  }

  /** The usual join: the names with one "::" between each two. */
  function Intercalate(names: seq<string>): string
  {
    if names == [] then []
    else if |names| == 1 then names[0]
    else names[0] + "::" + Intercalate(names[1..])
  }

  /** The names without their leading empty ones. */
  function DropLeadingEmpty(names: seq<string>): (r: seq<string>)
    ensures r == [] || r[0] != []
    ensures |r| <= |names| && r == names[|names| - |r|..]
    ensures forall j :: 0 <= j < |names| - |r| ==> names[j] == []
  {
    if names == [] || names[0] != [] then names else DropLeadingEmpty(names[1..])
  }

  lemma {:induction false} IntercalateSnoc(names: seq<string>, name: string)
    requires names != []
    ensures Intercalate(names + [name]) == Intercalate(names) + "::" + name
    decreases |names|
  {
    if |names| == 1 {
      assert names + [name] == [names[0], name];
      assert [names[0], name][1..] == [name];
    } else {
      assert (names + [name])[1..] == names[1..] + [name];
      IntercalateSnoc(names[1..], name);
    }
  }

  lemma IntercalateNonEmpty(names: seq<string>)
    requires names != [] && names[0] != []
    ensures Intercalate(names) != []
  {
  }

  lemma {:induction false} DropLeadingEmptySnoc(names: seq<string>, name: string)
    ensures DropLeadingEmpty(names + [name]) ==
      if DropLeadingEmpty(names) == [] then DropLeadingEmpty([name]) else DropLeadingEmpty(names) + [name]
    decreases |names|
  {
    if names == [] {
      assert names + [name] == [name];
    } else {
      assert (names + [name])[0] == names[0];
      if names[0] == [] {
        assert (names + [name])[1..] == names[1..] + [name];
        assert DropLeadingEmpty(names) == DropLeadingEmpty(names[1..]);
        assert DropLeadingEmpty(names + [name]) == DropLeadingEmpty(names[1..] + [name]);
        DropLeadingEmptySnoc(names[1..], name);
      } else {
        assert DropLeadingEmpty(names) == names;
        assert DropLeadingEmpty(names + [name]) == names + [name];
      }
    }
  }

  /** The left fold is the usual join once the leading empty names are
      dropped: an empty name contributes no separator before any name, and
      a separator (with nothing after it) once something is accumulated. */
  lemma {:induction false} JoinIsIntercalate(names: seq<string>)
    ensures Join(names) == Intercalate(DropLeadingEmpty(names))
    decreases |names|
  {
    if names != [] {
      var init, last := names[..|names| - 1], names[|names| - 1];
      assert names == init + [last];
      JoinIsIntercalate(init);
      DropLeadingEmptySnoc(init, last);
      var p := DropLeadingEmpty(init);
      if p != [] {
        IntercalateNonEmpty(p);
        IntercalateSnoc(p, last);
      }
    }
  }

  /** The joined name is empty exactly when every name is. */
  lemma JoinEmpty(names: seq<string>)
    ensures Join(names) == [] <==> forall j :: 0 <= j < |names| ==> names[j] == []
  {
    JoinIsIntercalate(names);
    var p := DropLeadingEmpty(names);
    if p != [] {
      IntercalateNonEmpty(p);
      assert names[|names| - |p|] == p[0];
    }
  }

  /** A path whose first name is not empty is joined the usual way. */
  lemma JoinPath(names: seq<string>)
    requires names != [] && names[0] != []
    ensures Join(names) == Intercalate(names)
  {
    JoinIsIntercalate(names);
  }

  // ---------------------------------------------------------------------------
  // parse_target
  // ---------------------------------------------------------------------------

  /** One more visited cursor adds its spelling to the joined name. */
  lemma JoinNext(vs: seq<Visited>, i: nat)
    requires i < |vs|
    ensures Join(Spellings(vs[..i + 1])) == AppendName(Join(Spellings(vs[..i])), vs[i].spelling)
  {
    assert Spellings(vs[..i + 1])[..i] == Spellings(vs[..i]);
  }

  /** Folds over the visited references: the scope of the first one, and the
      spellings joined with "::", up to and including the first overloaded
      declaration reference.  With nothing visited both stay empty. */
  method ParseTarget(vs: seq<Visited>) returns (target: string, scope: string)
    requires ReferencesOnly(vs)
    ensures target == Join(Spellings(Reached(vs)))
    ensures scope == if vs == [] then "" else vs[0].scope
  {
    target, scope := "", "";
    var first := true;
    var i := 0;
    while i < |vs|
      invariant 0 <= i <= VisitCount(vs)
      invariant first <==> i == 0
      invariant forall j :: 0 <= j < i ==> vs[j].referenced != OverloadedDeclRef
      invariant target == Join(Spellings(vs[..i]))
      invariant scope == if i == 0 then "" else vs[0].scope
    {
      assert vs[i].isReference;
      if first {
        scope := vs[i].scope;
      }
      first := false;
      JoinNext(vs, i);
      if target != "" {
        target := target + "::";
      }
      target := target + vs[i].spelling;
      if vs[i].referenced == OverloadedDeclRef {
        i := i + 1;
        break;
      }
      i := i + 1;
    }
    assert i == VisitCount(vs);
    assert Reached(vs) == vs[..i];
  }

  /** Without an overloaded declaration reference, and with a first name
      that is not empty, the target is every spelling joined with "::". */
  lemma TargetOfPath(vs: seq<Visited>)
    requires vs != [] && vs[0].spelling != []
    requires forall j :: 0 <= j < |vs| ==> vs[j].referenced != OverloadedDeclRef
    ensures Join(Spellings(Reached(vs))) == Intercalate(Spellings(vs))
  {
    ReachesAll(vs);
    JoinPath(Spellings(vs));
  }

  // ---------------------------------------------------------------------------
  // The entities built from the target
  // ---------------------------------------------------------------------------

  /** A namespace alias: its scope, name, comment and target, and the unique
      name it is registered under. */
  datatype NamespaceAlias = NamespaceAlias(scope: string, name: string, comment: string,
                                           target: string, unique: string)

  /** A using-directive: the scope and name of the namespace it names. */
  datatype UsingDirective = UsingDirective(scope: string, target: string, comment: string)

  /** A using-declaration: the scope and name of the entity it names. */
  datatype UsingDeclaration = UsingDeclaration(scope: string, target: string, comment: string)

  /** The alias's unique name: its target behind the target's scope. */
  function QualifiedName(targetScope: string, target: string): string
  {
    if targetScope == [] then target else targetScope + "::" + target
  }

  /** The unique name is the scope and the target's own names joined with
      "::", when the first of those names is not empty; an empty scope adds
      nothing. */
  lemma QualifiedNameIsJoin(targetScope: string, names: seq<string>)
    requires names != [] && names[0] != []
    ensures QualifiedName(targetScope, Join(names)) == Join([targetScope] + names)
  {
    JoinPath(names);
    JoinIsIntercalate([targetScope] + names);
    assert ([targetScope] + names)[1..] == names;
  }

  /** Builds a namespace alias from the visit under its cursor. */
  method ParseNamespaceAlias(scope: string, name: string, comment: string, vs: seq<Visited>)
    returns (alias: NamespaceAlias)
    requires ReferencesOnly(vs)
    ensures alias.scope == scope && alias.name == name && alias.comment == comment
    ensures alias.target == Join(Spellings(Reached(vs)))
    ensures vs == [] ==> alias.target == "" && alias.unique == ""
    ensures vs != [] && vs[0].spelling != "" ==>
      alias.unique == Join([vs[0].scope] + Spellings(Reached(vs)))
    ensures vs == [] || vs[0].scope == "" ==> alias.unique == alias.target
    ensures vs != [] && vs[0].scope != "" ==> alias.unique == vs[0].scope + "::" + alias.target
  {
    var target, targetScope := ParseTarget(vs);
    alias := NamespaceAlias(scope, name, comment, target, QualifiedName(targetScope, target));
    if vs != [] && vs[0].spelling != "" {
      QualifiedNameIsJoin(targetScope, Spellings(Reached(vs)));
    }
  }

  /** Builds a using-directive from the visit under its cursor. */
  method ParseUsingDirective(comment: string, vs: seq<Visited>) returns (d: UsingDirective)
    requires ReferencesOnly(vs)
    ensures d.target == Join(Spellings(Reached(vs)))
    ensures d.scope == if vs == [] then "" else vs[0].scope
    ensures d.comment == comment
  {
    var target, targetScope := ParseTarget(vs);
    d := UsingDirective(targetScope, target, comment);
  }

  /** Builds a using-declaration from the visit under its cursor. */
  method ParseUsingDeclaration(comment: string, vs: seq<Visited>) returns (d: UsingDeclaration)
    requires ReferencesOnly(vs)
    ensures d.target == Join(Spellings(Reached(vs)))
    ensures d.scope == if vs == [] then "" else vs[0].scope
    ensures d.comment == comment
  {
    var target, targetScope := ParseTarget(vs);
    d := UsingDeclaration(targetScope, target, comment);
  }
}
