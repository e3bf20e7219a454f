/**
 What an emitted spec says, in terms of the description it was written for: which bytes are
 copied when, how many, and what lies behind a pointer. Nothing here uses the translation.
 */
module MarshalMeaning {
  import opened Options
  import opened Marshal

  /** Before the call the runtime copies the bytes over, after it back, as the direction says. */
  predicate CopiedIn(d: CDir) {
    d == DirIn || d == DirInOut
  }

  predicate CopiedBack(d: CDir) {
    d == DirOut || d == DirInOut
  }

  /** What is declared, or a value for when nothing is. */
  predicate Declared<T(==)>(v: T, o: Option<T>, absent: T) {
    if o.Some? then o.value == v else v == absent
  }

  /** Bytes go over unless the pointer is for output only, and come back only if it is for output. */
  predicate DirConforms(d: CDir, a: Node) {
    && (CopiedIn(d) <==> a.dir == NoDir || a.dir == In || a.dir == InOut || a.dir.OtherDir?)
    && (CopiedBack(d) <==> a.dir == Out || a.dir == InOut)
  }

  /** The argument a size is read from; an index of an argument goes before that of a field. */
  predicate IndexConforms(arg: int, a: Node) {
    if a.sizeArgIndex.Some? then arg == a.sizeArgIndex.value else Declared(arg, a.sizeFieldIndex, 0)
  }

  predicate SizeConforms(s: CSize, a: Node) {
    && (s.SizeConst? <==> a.sizeKind == Const || a.sizeKind == NoSizeKind)
    && (s.SizeConst? ==> Declared(s.bytes, a.constSize, 0))
    && (s.SizeFromArg? <==> a.sizeKind == FromArg)
    && (s.SizeFromArg? ==> IndexConforms(s.arg, a))
    && (s.SizeFromPointee? <==> a.sizeKind == FromArgPointee)
    && (s.SizeFromPointee? ==> IndexConforms(s.arg, a))
    && (s.SizeCstr? <==> a.sizeKind == Cstr)
    && (s.SizePtrArray? <==> a.sizeKind == PtrArray)
  }

  /** The pointer is followed into a structure, or into another argument, by its first pointee. */
  predicate First(a: Node, kind: Kind) {
    a.sizeKind != PtrArray && a.pointee != [] && a.pointee[0].kind == kind
  }

  predicate Conforms(t: Tree, a: Node)
    decreases a, 1
  {
    && (t.HandleT? <==> a.kind == Handle)
    && (t.HandleT? ==> Declared(t.cls, a.handleClass, VOID_CLASS))
    && (t.PtrT? <==> a.kind == Ptr)
    && (t.PtrT? ==> DirConforms(t.dir, a) && SizeConforms(t.size, a) && TargetConforms(t.to, a))
  }

  predicate TargetConforms(to: Target, a: Node)
    decreases a, 0
  {
    && (to.ElementT? <==> a.sizeKind == PtrArray && a.pointee != [])
    && (to.ElementT? ==> Conforms(to.element, a.pointee[0]))
    && (to.LayoutT? <==> First(a, Struct))
    && (to.LayoutT? ==> Declared(to.size, a.pointee[0].size, 0) && FieldsConform(to.fields, a.pointee[0].fields))
    && (to.IntoT? <==> First(a, PtrIntoArg))
    && (to.IntoT? ==> Declared(to.arg1 - 1, a.pointee[0].intoArg, 0))
  }

  predicate FieldsConform(ts: seq<FieldT>, fs: seq<Node>)
    decreases fs
  {
    |ts| == |fs| && forall i :: 0 <= i < |fs| ==> FieldConforms(ts[i], fs[i])
  }

  predicate FieldConforms(t: FieldT, f: Node)
    decreases f, 2
  {
    Declared(t.offset, f.offset, 0) && t.touched == f.touched && Conforms(t.spec, f)
  }

  /** An absent return is void; a return without a kind, or of one that is not known, a scalar. */
  predicate RetConforms(b: RetBody, ret: Option<Ret>) {
    && (b.kind == RetVoid <==> ret.None? || ret.value.kind == RetVoid)
    && (b.kind == RetScalar <==> ret.Some? && (ret.value.kind == RetScalar || ret.value.kind == NoRetKind || ret.value.kind.OtherRet?))
    && (b.kind == RetAlias <==> ret.Some? && ret.value.kind == RetAlias)
    && (b.kind == RetInto <==> ret.Some? && ret.value.kind == RetInto)
    && (b.kind == RetHandle <==> ret.Some? && ret.value.kind == RetHandle)
    && (b.alias.Some? <==> b.kind == RetAlias || b.kind == RetInto)
    && (b.alias.Some? ==> Declared(b.alias.value, ret.value.aliasArg, 0))
    && (b.cls.Some? <==> b.kind == RetHandle)
    && (b.cls.Some? ==> Declared(b.cls.value, ret.value.handleClass, VOID_CLASS))
  }

  // ---- the relation leaves no choice ----

  lemma DirUnique(d: CDir, e: CDir, a: Node)
    requires DirConforms(d, a) && DirConforms(e, a)
    ensures d == e
  {
  }

  lemma SizeUnique(s: CSize, t: CSize, a: Node)
    requires SizeConforms(s, a) && SizeConforms(t, a)
    ensures s == t
  {
  }

  /** A description has one meaning. */
  lemma {:induction false} ConformsUnique(t: Tree, u: Tree, a: Node)
    requires Conforms(t, a) && Conforms(u, a)
    ensures t == u
    decreases a
  {
    if a.kind == Ptr {
      DirUnique(t.dir, u.dir, a);
      SizeUnique(t.size, u.size, a);
      TargetUnique(t.to, u.to, a);
    }
  }

  lemma {:induction false} TargetUnique(t: Target, u: Target, a: Node)
    requires TargetConforms(t, a) && TargetConforms(u, a)
    ensures t == u
    decreases a, 0
  {
    if t.ElementT? {
      ConformsUnique(t.element, u.element, a.pointee[0]);
    } else if t.LayoutT? {
      FieldsUnique(t.fields, u.fields, a.pointee[0].fields);
    }
  }

  lemma {:induction false} FieldsUnique(ts: seq<FieldT>, us: seq<FieldT>, fs: seq<Node>)
    requires FieldsConform(ts, fs) && FieldsConform(us, fs)
    ensures ts == us
    decreases fs
  {
    forall i | 0 <= i < |fs| ensures ts[i] == us[i] {
      assert FieldConforms(ts[i], fs[i]) && FieldConforms(us[i], fs[i]);
      ConformsUnique(ts[i].spec, us[i].spec, fs[i]);
    }
  }

  // ---- what is emitted conforms ----

  lemma SizeMeans(a: Node)
    ensures SizeConforms(SizeOf(a), a) && DirConforms(DirOf(a.dir), a)
  {
  }

  lemma RetMeans(ret: Option<Ret>)
    ensures RetConforms(RetOf(ret), ret)
  {
  }

  lemma {:induction false} TranslateConforms(a: Node)
    ensures Conforms(Translate(a), a)
    decreases a
  {
    if a.kind == Ptr {
      SizeMeans(a);
      hide DirOf, SizeOf, DirConforms, SizeConforms;
      if a.pointee != [] {
        if a.sizeKind == PtrArray {
          TranslateConforms(a.pointee[0]);
        } else if a.pointee[0].kind == Struct {
          FieldsTranslate(a.pointee[0].fields);
        }
      }
    }
  }

  lemma {:induction false} FieldsTranslate(fs: seq<Node>)
    ensures FieldsConform(TranslateFields(fs), fs)
    decreases fs
  {
    if fs != [] {
      TranslateConforms(fs[0]);
      FieldsTranslate(fs[1..]);
      hide Translate, Conforms;
      var rest := TranslateFields(fs[1..]);
      forall i | 0 <= i < |fs| ensures FieldConforms(TranslateFields(fs)[i], fs[i]) {
        if i > 0 {
          assert FieldConforms(rest[i - 1], fs[1..][i - 1]);
        }
      }
    }
  }

  /** A spec, read through the declarations of the file, means what the description says. */
  predicate SpecConforms(decls: seq<Decl>, spec: SpecDef, f: Function) {
    && spec.name == f.name && RetConforms(spec.ret, f.ret) && |spec.args| == |f.args|
    && forall i :: 0 <= i < |f.args| ==> ArgConforms(decls, spec.args[i], f.args[i])
  }

  predicate ArgConforms(decls: seq<Decl>, b: Body, a: Node) {
    var t := Resolve(decls, |decls|, b);
    t.Some? && Conforms(t.value, a)
  }

  /** Every accepted function's spec in the generated file means what its description says. */
  lemma ProgramMeans(fs: seq<Function>, excluded: set<nat>)
    ensures var fns := Accepted(fs, excluded); var (specs, em) := EmitFunctions(fns, Em([], 0));
      |specs| == |fns| && forall i :: 0 <= i < |fns| ==> SpecConforms(em.decls, specs[i], fns[i])
  {
    GeneratedProgram(fs, excluded);
    var fns := Accepted(fs, excluded);
    var (specs, em) := EmitFunctions(fns, Em([], 0));
    hide Accepted, EmitFunctions, IsMarshalable, SpecConforms;
    forall i | 0 <= i < |fns| ensures SpecConforms(em.decls, specs[i], fns[i]) {
      SpecMeans(em.decls, specs[i], fns[i]);
    }
  }

  lemma SpecMeans(decls: seq<Decl>, spec: SpecDef, f: Function)
    requires Describes(decls, spec, f)
    ensures SpecConforms(decls, spec, f)
  {
    RetMeans(f.ret);
    hide RetOf, RetConforms, Resolve, Translate, Conforms;
    forall i | 0 <= i < |f.args| ensures ArgConforms(decls, spec.args[i], f.args[i]) {
      TranslateConforms(f.args[i]);
    }
  }

  // ---- what is accepted ----

  /** A description that occurs in another, behind pointers or as a field. */
  ghost predicate Occurs(n: Node, a: Node)
    decreases a
  {
    n == a || OccursIn(n, a.pointee) || OccursIn(n, a.fields)
  }

  ghost predicate OccursIn(n: Node, ns: seq<Node>)
    decreases ns
  {
    exists i :: 0 <= i < |ns| && Occurs(n, ns[i])
  }

  /** What the runtime can do: no cursor, and for a pointer a size of a kind that is known. */
  predicate Feasible(n: Node) {
    && !n.cursor
    && (n.kind == Ptr ==> n.sizeKind in {NoSizeKind, SaysNone, Na, Const, FromArg, FromArgPointee, Cstr, PtrArray})
  }

  lemma {:induction false} WalkMeans(a: Node)
    ensures Walk(a) <==> forall n :: Occurs(n, a) ==> Feasible(n)
    decreases a
  {
    WalkAllMeans(a.pointee);
    WalkAllMeans(a.fields);
    assert Occurs(a, a);
    assert Walk(a) <==> Feasible(a) && WalkAll(a.pointee) && WalkAll(a.fields);
    hide Feasible, WalkAll, OccursIn;
    if forall n :: Occurs(n, a) ==> Feasible(n) {
      forall n | OccursIn(n, a.pointee) || OccursIn(n, a.fields) ensures Feasible(n) {
        assert Occurs(n, a);
      }
    }
  }

  lemma {:induction false} WalkAllMeans(ns: seq<Node>)
    ensures WalkAll(ns) <==> forall n :: OccursIn(n, ns) ==> Feasible(n)
    decreases ns
  {
    if ns != [] {
      WalkMeans(ns[0]);
      WalkAllMeans(ns[1..]);
      hide Feasible, Walk, Occurs;
      forall n ensures OccursIn(n, ns) <==> Occurs(n, ns[0]) || OccursIn(n, ns[1..]) {
        OccursSplit(n, ns);
      }
    }
  }

  lemma OccursSplit(n: Node, ns: seq<Node>)
    requires ns != []
    ensures OccursIn(n, ns) <==> Occurs(n, ns[0]) || OccursIn(n, ns[1..])
  {
    hide Occurs;
    if OccursIn(n, ns) && !Occurs(n, ns[0]) {
      var i :| 0 <= i < |ns| && Occurs(n, ns[i]);
      assert ns[1..][i - 1] == ns[i];
    }
    if OccursIn(n, ns[1..]) {
      var i :| 0 <= i < |ns[1..]| && Occurs(n, ns[1..][i]);
      assert ns[i + 1] == ns[1..][i];
    }
  }

  /**
   A function is interposed exactly if its name is not excluded, its arguments fit the
   transport, the kind of its return is known, and everything described in its arguments at any
   depth is feasible.
   */
  lemma AcceptedMeans(f: Function, excluded: set<nat>)
    ensures IsMarshalable(f, excluded) <==>
      && f.name !in excluded && |f.args| <= 6
      && (f.ret.Some? ==> f.ret.value.kind in {NoRetKind, RetVoid, RetScalar, RetAlias, RetInto, RetHandle})
      && forall n :: OccursIn(n, f.args) ==> Feasible(n)
  {
    WalkAllMeans(f.args);
    hide WalkAll, OccursIn, Feasible;
  }
}
