/**
 The marshalling-spec emitter: a tree of argument descriptions is written out as a list of
 named C declarations that refer to one another. Resolving the names again gives the tree.
 */
module Marshal {
  import opened Options

  // ---- descriptions, as the inference tool writes them ----

  /** Absent keys are their own case; the numbers stand for words that are not known. */
  datatype Kind = NoKind | Scalar | Handle | Ptr | Struct | PtrIntoArg | OtherKind(word: nat)
  datatype Dir = NoDir | In | Out | InOut | OtherDir(word: nat)
  datatype SizeKind = NoSizeKind | SaysNone | Na | Const | FromArg | FromArgPointee | Cstr | PtrArray | OtherSize(word: nat)

  datatype Node = Node(
    kind: Kind,
    handleClass: Option<nat>,
    dir: Dir,
    sizeKind: SizeKind,
    constSize: Option<int>,
    sizeArgIndex: Option<int>,
    sizeFieldIndex: Option<int>,
    cursor: bool,
    pointee: seq<Node>,
    fields: seq<Node>,
    intoArg: Option<int>,
    offset: Option<int>,
    touched: bool,
    size: Option<int>)

  datatype RetKind = NoRetKind | RetVoid | RetScalar | RetAlias | RetInto | RetHandle | OtherRet(word: nat)
  datatype Ret = Ret(kind: RetKind, aliasArg: Option<int>, handleClass: Option<nat>)
  datatype Function = Function(name: nat, args: seq<Node>, ret: Option<Ret>)

  const RAW_ARGS_MAX: nat := 6
  const VOID_CLASS: nat := 0

  function Get<T>(o: Option<T>, default: T): T {
    match o case None => default case Some(v) => v
  }

  // ---- what the runtime can marshal ----

  /** `walk`: no cursor and no pointer of unknown size anywhere below. */
  predicate Walk(n: Node)
    decreases n
  {
    !n.cursor && (n.kind == Ptr ==> !n.sizeKind.OtherSize?) && WalkAll(n.pointee) && WalkAll(n.fields)
  }

  predicate WalkAll(ns: seq<Node>)
    decreases ns
  {
    ns == [] || (Walk(ns[0]) && WalkAll(ns[1..]))
  }

  /** `is_marshalable`; `excluded` holds the names that are never interposed. */
  predicate IsMarshalable(f: Function, excluded: set<nat>) {
    && f.name !in excluded && |f.args| <= RAW_ARGS_MAX
    && (f.ret.Some? ==> !f.ret.value.kind.OtherRet?)
    && WalkAll(f.args)
  }

  // ---- the direct translation ----

  datatype CDir = DirIn | DirOut | DirInOut
  datatype CSize = SizeConst(bytes: int) | SizeFromArg(arg: int) | SizeFromPointee(arg: int) | SizeCstr | SizePtrArray | SizeNone

  datatype Tree = ScalarT | HandleT(cls: nat) | PtrT(dir: CDir, size: CSize, to: Target)
  datatype Target = Flat | ElementT(element: Tree) | IntoT(arg1: int) | LayoutT(size: int, fields: seq<FieldT>)
  datatype FieldT = FieldT(offset: int, spec: Tree, touched: bool)

  function DirOf(d: Dir): CDir {
    match d case Out => DirOut case InOut => DirInOut case _ => DirIn
  }

  function SizeOf(a: Node): CSize {
    match a.sizeKind
    case NoSizeKind => SizeConst(Get(a.constSize, 0))
    case Const => SizeConst(Get(a.constSize, 0))
    case FromArg => SizeFromArg(Get(a.sizeArgIndex, Get(a.sizeFieldIndex, 0)))
    case FromArgPointee => SizeFromPointee(Get(a.sizeArgIndex, Get(a.sizeFieldIndex, 0)))
    case Cstr => SizeCstr
    case PtrArray => SizePtrArray
    case _ => SizeNone
  }

  function Translate(a: Node): Tree
    decreases a
  {
    match a.kind
    case Handle => HandleT(Get(a.handleClass, VOID_CLASS))
    case Ptr =>
      PtrT(DirOf(a.dir), SizeOf(a),
           if a.pointee == [] then Flat
           else if a.sizeKind == PtrArray then ElementT(Translate(a.pointee[0]))
           else if a.pointee[0].kind == Struct then
             LayoutT(Get(a.pointee[0].size, 0), TranslateFields(a.pointee[0].fields))
           else if a.pointee[0].kind == PtrIntoArg then IntoT(Get(a.pointee[0].intoArg, 0) + 1)
           else Flat)
    case _ => ScalarT
  }

  function TranslateFields(fs: seq<Node>): seq<FieldT>
    decreases fs
  {
    if fs == [] then []
    else [FieldT(Get(fs[0].offset, 0), Translate(fs[0]), fs[0].touched)] + TranslateFields(fs[1..])
  }

  // ---- declarations ----

  datatype Base = Elem | FSpec | Fields | Layout
  datatype Name = Name(base: Base, n: nat)

  datatype Ref = NoRef | ElementRef(name: Name) | LayoutRef(name: Name) | IntoRef(arg1: int)
  datatype Body = ScalarBody | HandleBody(cls: nat) | PtrBody(dir: CDir, size: CSize, to: Ref)
  datatype FieldInit = FieldInit(offset: int, spec: Name, touched: bool)

  datatype Decl =
    | SpecDecl(name: Name, body: Body)
    | FieldsDecl(name: Name, inits: seq<FieldInit>)
    | LayoutDecl(name: Name, nfields: nat, fields: Name, size: int)

  /** The emitter's two fields. */
  datatype Em = Em(decls: seq<Decl>, n: nat)

  /** `arg_spec_body`. */
  function EmitArg(a: Node, em: Em): (Body, Em)
    decreases a
  {
    match a.kind
    case Handle => (HandleBody(Get(a.handleClass, VOID_CLASS)), em)
    case Ptr =>
      if a.pointee == [] then (PtrBody(DirOf(a.dir), SizeOf(a), NoRef), em)
      else if a.sizeKind == PtrArray then
        var (body, em1) := EmitArg(a.pointee[0], em);
        var (name, em2) := PutElement(body, em1);
        (PtrBody(DirOf(a.dir), SizeOf(a), ElementRef(name)), em2)
      else if a.pointee[0].kind == Struct then
        var (inits, em1) := EmitFields(a.pointee[0].fields, em);
        var (name, em2) := PutLayout(inits, Get(a.pointee[0].size, 0), em1);
        (PtrBody(DirOf(a.dir), SizeOf(a), LayoutRef(name)), em2)
      else if a.pointee[0].kind == PtrIntoArg then
        (PtrBody(DirOf(a.dir), SizeOf(a), IntoRef(Get(a.pointee[0].intoArg, 0) + 1)), em)
      else (PtrBody(DirOf(a.dir), SizeOf(a), NoRef), em)
    case _ => (ScalarBody, em)
  }

  /** The loop of `emit_layout`: a field's number is taken before what its own spec needs. */
  function EmitFields(fs: seq<Node>, em: Em): (seq<FieldInit>, Em)
    decreases fs
  {
    if fs == [] then ([], em)
    else
      var name := Name(FSpec, em.n + 1);
      var (body, em1) := EmitArg(fs[0], em.(n := em.n + 1));
      var (rest, em2) := EmitFields(fs[1..], em1.(decls := em1.decls + [SpecDecl(name, body)]));
      ([FieldInit(Get(fs[0].offset, 0), name, fs[0].touched)] + rest, em2)
  }

  /** The end of `emit_element`. */
  function PutElement(body: Body, em: Em): (Name, Em) {
    var name := Name(Elem, em.n + 1);
    (name, Em(em.decls + [SpecDecl(name, body)], em.n + 1))
  }

  /** The end of `emit_layout`. */
  function PutLayout(inits: seq<FieldInit>, size: int, em: Em): (Name, Em) {
    var fields, layout := Name(Fields, em.n + 1), Name(Layout, em.n + 2);
    (layout, Em(em.decls + [FieldsDecl(fields, inits)] + [LayoutDecl(layout, |inits|, fields, size)], em.n + 2))
  }

  // ---- reading declarations back ----

  /** Where a name is declared, among the first `k`. */
  function Find(decls: seq<Decl>, k: nat, name: Name): (i: Option<nat>)
    requires k <= |decls|
    ensures i.Some? ==> i.value < k && decls[i.value].name == name
    ensures i.None? ==> forall j :: 0 <= j < k ==> decls[j].name != name
  {
    if k == 0 then None
    else
      match Find(decls, k - 1, name)
      case Some(i) => Some(i)
      case None => if decls[k - 1].name == name then Some(k - 1) else None
  }

  /** What a body stands for when names can only refer to the first `k` declarations, and so on down. */
  function Resolve(decls: seq<Decl>, k: nat, b: Body): Option<Tree>
    requires k <= |decls|
    decreases k, 3, 0
  {
    match b
    case ScalarBody => Some(ScalarT)
    case HandleBody(cls) => Some(HandleT(cls))
    case PtrBody(dir, size, to) =>
      match ResolveRef(decls, k, to)
      case None => None
      case Some(target) => Some(PtrT(dir, size, target))
  }

  function ResolveRef(decls: seq<Decl>, k: nat, to: Ref): Option<Target>
    requires k <= |decls|
    decreases k, 2, 0
  {
    match to
    case NoRef => Some(Flat)
    case IntoRef(arg1) => Some(IntoT(arg1))
    case ElementRef(name) =>
      (match ResolveSpec(decls, k, name) case None => None case Some(t) => Some(ElementT(t)))
    case LayoutRef(name) =>
      match Find(decls, k, name)
      case None => None
      case Some(i) =>
        if !decls[i].LayoutDecl? then None
        else
          match Find(decls, i, decls[i].fields)
          case None => None
          case Some(j) =>
            if !decls[j].FieldsDecl? || |decls[j].inits| != decls[i].nfields then None
            else
              match ResolveFields(decls, j, decls[j].inits)
              case None => None
              case Some(fs) => Some(LayoutT(decls[i].size, fs))
  }

  /** A named spec. */
  function ResolveSpec(decls: seq<Decl>, k: nat, name: Name): Option<Tree>
    requires k <= |decls|
    decreases k, 0, 0
  {
    match Find(decls, k, name)
    case None => None
    case Some(i) => if decls[i].SpecDecl? then Resolve(decls, i, decls[i].body) else None
  }

  function ResolveFields(decls: seq<Decl>, k: nat, inits: seq<FieldInit>): Option<seq<FieldT>>
    requires k <= |decls|
    decreases k, 1, |inits|
  {
    if inits == [] then Some([])
    else
      match ResolveSpec(decls, k, inits[0].spec)
      case None => None
      case Some(t) =>
        match ResolveFields(decls, k, inits[1..])
        case None => None
        case Some(rest) => Some([FieldT(inits[0].offset, t, inits[0].touched)] + rest)
  }

  // ---- a whole program ----

  datatype RetBody = RetBody(kind: RetKind, alias: Option<int>, cls: Option<nat>)
  datatype SpecDef = SpecDef(name: nat, args: seq<Body>, ret: RetBody)

  /** `ret_spec_body`; an absent return is void, an absent or unknown kind a scalar. */
  function RetOf(ret: Option<Ret>): RetBody {
    match ret
    case None => RetBody(RetVoid, None, None)
    case Some(r) =>
      RetBody(if r.kind.NoRetKind? || r.kind.OtherRet? then RetScalar else r.kind,
              if r.kind == RetAlias || r.kind == RetInto then Some(Get(r.aliasArg, 0)) else None,
              if r.kind == RetHandle then Some(Get(r.handleClass, VOID_CLASS)) else None)
  }

  function EmitArgs(ns: seq<Node>, em: Em): (seq<Body>, Em) {
    if ns == [] then ([], em)
    else
      var (b, em1) := EmitArg(ns[0], em);
      var (rest, em2) := EmitArgs(ns[1..], em1);
      ([b] + rest, em2)
  }

  /** `emit_function_spec` for one function after the other. */
  function EmitFunctions(fs: seq<Function>, em: Em): (seq<SpecDef>, Em) {
    if fs == [] then ([], em)
    else
      var (args, em1) := EmitArgs(fs[0].args, em);
      var (rest, em2) := EmitFunctions(fs[1..], em1);
      ([SpecDef(fs[0].name, args, RetOf(fs[0].ret))] + rest, em2)
  }

  function Accepted(fs: seq<Function>, excluded: set<nat>): seq<Function> {
    if fs == [] then []
    else (if IsMarshalable(fs[0], excluded) then [fs[0]] else []) + Accepted(fs[1..], excluded)
  }

  // ---- later declarations change nothing ----

  predicate Extends(decls: seq<Decl>, k: nat, more: seq<Decl>, k1: nat) {
    k <= |decls| && k <= k1 <= |more| && decls[..k] <= more
  }

  lemma {:induction false} FindGrows(decls: seq<Decl>, k: nat, more: seq<Decl>, k1: nat, name: Name)
    requires Extends(decls, k, more, k1) && Find(decls, k, name).Some?
    ensures Find(more, k1, name) == Find(decls, k, name)
    decreases k1
  {
    assert forall i :: 0 <= i < k ==> decls[i] == decls[..k][i] == more[i];
    if k < k1 {
      FindGrows(decls, k, more, k1 - 1, name);
    } else if Find(decls, k - 1, name).Some? {
      FindGrows(decls, k - 1, more, k - 1, name);
    } else {
      FindNothing(decls, k - 1, more, name);
    }
  }

  lemma {:induction false} FindNothing(decls: seq<Decl>, k: nat, more: seq<Decl>, name: Name)
    requires k <= |decls| && k <= |more| && (forall i :: 0 <= i < k ==> decls[i] == more[i]) && Find(decls, k, name).None?
    ensures Find(more, k, name).None?
    decreases k
  {
    if k > 0 {
      FindNothing(decls, k - 1, more, name);
    }
  }

  lemma ExtendsBelow(decls: seq<Decl>, k: nat, more: seq<Decl>, k1: nat, i: nat)
    requires Extends(decls, k, more, k1) && i < k
    ensures Extends(decls, i, more, i) && more[i] == decls[i]
  {
    assert decls[..k][i] == more[i] && decls[..i] == decls[..k][..i];
  }

  /** What resolves among the first declarations resolves the same way among more. */
  lemma {:induction false} ResolveGrows(decls: seq<Decl>, k: nat, more: seq<Decl>, k1: nat, b: Body)
    requires Extends(decls, k, more, k1) && Resolve(decls, k, b).Some?
    ensures Resolve(more, k1, b) == Resolve(decls, k, b)
    decreases k, 3, 0
  {
    hide Find;
    if b.PtrBody? {
      RefGrows(decls, k, more, k1, b.to);
    }
  }

  lemma {:induction false} RefGrows(decls: seq<Decl>, k: nat, more: seq<Decl>, k1: nat, to: Ref)
    requires Extends(decls, k, more, k1) && ResolveRef(decls, k, to).Some?
    ensures ResolveRef(more, k1, to) == ResolveRef(decls, k, to)
    decreases k, 2, 0
  {
    hide Find;
    match to
    case ElementRef(name) => SpecGrows(decls, k, more, k1, name);
    case LayoutRef(name) =>
      FindGrows(decls, k, more, k1, name);
      var i := Find(decls, k, name).value;
      ExtendsBelow(decls, k, more, k1, i);
      FindGrows(decls, i, more, i, decls[i].fields);
      var j := Find(decls, i, decls[i].fields).value;
      ExtendsBelow(decls, i, more, i, j);
      FieldsGrow(decls, j, more, j, decls[j].inits);
    case _ =>
  }

  lemma {:induction false} SpecGrows(decls: seq<Decl>, k: nat, more: seq<Decl>, k1: nat, name: Name)
    requires Extends(decls, k, more, k1) && ResolveSpec(decls, k, name).Some?
    ensures ResolveSpec(more, k1, name) == ResolveSpec(decls, k, name)
    decreases k, 0, 0
  {
    hide Find;
    FindGrows(decls, k, more, k1, name);
    var i := Find(decls, k, name).value;
    ExtendsBelow(decls, k, more, k1, i);
    ResolveGrows(decls, i, more, i, decls[i].body);
  }

  lemma {:induction false} FieldsGrow(decls: seq<Decl>, k: nat, more: seq<Decl>, k1: nat, inits: seq<FieldInit>)
    requires Extends(decls, k, more, k1) && ResolveFields(decls, k, inits).Some?
    ensures ResolveFields(more, k1, inits) == ResolveFields(decls, k, inits)
    decreases k, 1, |inits|
  {
    hide Find;
    if inits != [] {
      SpecGrows(decls, k, more, k1, inits[0].spec);
      FieldsGrow(decls, k, more, k1, inits[1..]);
    }
  }

  // ---- emission ----

  /** No number is used twice, and none beyond the counter. */
  predicate Numbered(em: Em) {
    && (forall i :: 0 <= i < |em.decls| ==> em.decls[i].name.n <= em.n)
    && (forall i, j :: 0 <= i < j < |em.decls| ==> em.decls[i].name.n != em.decls[j].name.n)
  }

  /** `em1` comes from `em` by declarations with new numbers. */
  predicate Follows(em: Em, em1: Em) {
    && em.decls <= em1.decls && em.n <= em1.n
    && (forall i :: |em.decls| <= i < |em1.decls| ==> em.n < em1.decls[i].name.n)
  }

  lemma FollowsTwice(em: Em, em1: Em, em2: Em)
    requires Follows(em, em1) && Follows(em1, em2)
    ensures Follows(em, em2)
  {
    assert forall i :: 0 <= i < |em1.decls| ==> em2.decls[i] == em1.decls[i];
  }

  lemma FindUnique(em: Em, k: nat, i: nat)
    requires Numbered(em) && i < k <= |em.decls|
    ensures Find(em.decls, k, em.decls[i].name) == Some(i)
  {
    hide Find;
    var r := Find(em.decls, k, em.decls[i].name);
  }

  lemma Grown(em: Em, em1: Em)
    requires em.decls <= em1.decls
    ensures Extends(em.decls, |em.decls|, em1.decls, |em1.decls|)
    ensures Extends(em.decls, |em.decls|, em1.decls, |em.decls|)
  {
    assert em.decls[..|em.decls|] == em.decls;
  }

  /** A spec put behind the declarations it needs. */
  lemma PutSpec(em: Em, name: Name, body: Body, t: Tree)
    requires Numbered(em) && name.n <= em.n && (forall i :: 0 <= i < |em.decls| ==> em.decls[i].name.n != name.n)
    requires Resolve(em.decls, |em.decls|, body) == Some(t)
    ensures var em1 := em.(decls := em.decls + [SpecDecl(name, body)]);
      Numbered(em1) && ResolveSpec(em1.decls, |em1.decls|, name) == Some(t)
  {
    var m, em1 := |em.decls|, em.(decls := em.decls + [SpecDecl(name, body)]);
    FindUnique(em1, m + 1, m);
    Grown(em, em1);
    ResolveGrows(em.decls, m, em1.decls, m, body);
  }

  lemma PutElementResolves(body: Body, em: Em, t: Tree)
    requires Numbered(em) && Resolve(em.decls, |em.decls|, body) == Some(t)
    ensures var (name, em1) := PutElement(body, em);
      Numbered(em1) && Follows(em, em1) && ResolveRef(em1.decls, |em1.decls|, ElementRef(name)) == Some(ElementT(t))
  {
    PutSpec(em.(n := em.n + 1), Name(Elem, em.n + 1), body, t);
    hide ResolveSpec, Resolve;
    var (name, em1) := PutElement(body, em);
    assert ResolveRef(em1.decls, |em1.decls|, ElementRef(name)) == Some(ElementT(t));
  }

  lemma PutLayoutResolves(inits: seq<FieldInit>, size: int, em: Em, fs: seq<FieldT>)
    requires Numbered(em) && ResolveFields(em.decls, |em.decls|, inits) == Some(fs)
    ensures var (name, em1) := PutLayout(inits, size, em);
      Numbered(em1) && Follows(em, em1) && ResolveRef(em1.decls, |em1.decls|, LayoutRef(name)) == Some(LayoutT(size, fs))
  {
    var m := |em.decls|;
    var (name, em1) := PutLayout(inits, size, em);
    assert em1.decls[m] == FieldsDecl(Name(Fields, em.n + 1), inits);
    assert em1.decls[m + 1] == LayoutDecl(name, |inits|, Name(Fields, em.n + 1), size);
    FindUnique(em1, m + 2, m + 1);
    FindUnique(em1, m + 1, m);
    Grown(em, em1);
    hide Find, ResolveFields, PutLayout;
    FieldsGrow(em.decls, m, em1.decls, m, inits);
  }

  /**
   Whatever was emitted before: the declarations an argument needs are new, refer only to
   earlier ones, and resolve to the argument's direct translation.
   */
  lemma {:induction false} EmitArgResolves(a: Node, em: Em)
    requires Numbered(em)
    ensures var (b, em1) := EmitArg(a, em);
      Numbered(em1) && Follows(em, em1) && Resolve(em1.decls, |em1.decls|, b) == Some(Translate(a))
    decreases a
  {
    if a.kind == Ptr && a.pointee != [] {
      if a.sizeKind == PtrArray {
        EmitArgResolves(a.pointee[0], em);
        var (body, em1) := EmitArg(a.pointee[0], em);
        PutElementResolves(body, em1, Translate(a.pointee[0]));
        FollowsTwice(em, em1, PutElement(body, em1).1);
        hide Numbered, Follows, PutElement, ResolveRef;
      } else if a.pointee[0].kind == Struct {
        EmitFieldsResolve(a.pointee[0].fields, em);
        var (inits, em1) := EmitFields(a.pointee[0].fields, em);
        var size := Get(a.pointee[0].size, 0);
        PutLayoutResolves(inits, size, em1, TranslateFields(a.pointee[0].fields));
        FollowsTwice(em, em1, PutLayout(inits, size, em1).1);
        hide Numbered, Follows, PutLayout, ResolveRef;
      }
    }
  }

  lemma {:induction false} EmitFieldsResolve(fs: seq<Node>, em: Em)
    requires Numbered(em)
    ensures var (inits, em1) := EmitFields(fs, em);
      Numbered(em1) && Follows(em, em1) && ResolveFields(em1.decls, |em1.decls|, inits) == Some(TranslateFields(fs))
    decreases fs
  {
    if fs != [] {
      var name := Name(FSpec, em.n + 1);
      var em0 := em.(n := em.n + 1);
      EmitFieldsCons(fs, em);
      hide EmitArg, EmitFields, TranslateFields, ResolveFields, Resolve, Numbered, Follows;
      EmitArgResolves(fs[0], em0);
      var (body, em1) := EmitArg(fs[0], em0);
      var em2 := em1.(decls := em1.decls + [SpecDecl(name, body)]);
      FieldSpecResolves(em, em1, body, Translate(fs[0]));
      hide ResolveSpec, Translate;
      EmitFieldsResolve(fs[1..], em2);
      var (rest, em3) := EmitFields(fs[1..], em2);
      FollowsTwice(em, em2, em3);
      FollowsGrown(em2, em3);
      SpecGrows(em2.decls, |em2.decls|, em3.decls, |em3.decls|, name);
      FieldsCons(em3.decls, FieldInit(Get(fs[0].offset, 0), name, fs[0].touched), rest, Translate(fs[0]), TranslateFields(fs[1..]));
    }
  }

  lemma EmitFieldsCons(fs: seq<Node>, em: Em)
    requires fs != []
    ensures var name := Name(FSpec, em.n + 1);
      var (body, em1) := EmitArg(fs[0], em.(n := em.n + 1));
      var (rest, em2) := EmitFields(fs[1..], em1.(decls := em1.decls + [SpecDecl(name, body)]));
      EmitFields(fs, em) == ([FieldInit(Get(fs[0].offset, 0), name, fs[0].touched)] + rest, em2)
    ensures TranslateFields(fs) == [FieldT(Get(fs[0].offset, 0), Translate(fs[0]), fs[0].touched)] + TranslateFields(fs[1..])
  {
    hide EmitArg, Translate;
  }

  lemma FieldsCons(decls: seq<Decl>, init: FieldInit, rest: seq<FieldInit>, t: Tree, ts: seq<FieldT>)
    requires ResolveSpec(decls, |decls|, init.spec) == Some(t) && ResolveFields(decls, |decls|, rest) == Some(ts)
    ensures ResolveFields(decls, |decls|, [init] + rest) == Some([FieldT(init.offset, t, init.touched)] + ts)
  {
    assert ([init] + rest)[1..] == rest;
  }

  lemma FollowsGrown(em: Em, em1: Em)
    requires Follows(em, em1)
    ensures em.decls <= em1.decls && Extends(em.decls, |em.decls|, em1.decls, |em1.decls|)
  {
    Grown(em, em1);
  }

  lemma FieldSpecResolves(em: Em, em1: Em, body: Body, t: Tree)
    requires Numbered(em) && Follows(em.(n := em.n + 1), em1) && Numbered(em1)
    requires Resolve(em1.decls, |em1.decls|, body) == Some(t)
    ensures var name := Name(FSpec, em.n + 1); var em2 := em1.(decls := em1.decls + [SpecDecl(name, body)]);
      Numbered(em2) && Follows(em, em2) && ResolveSpec(em2.decls, |em2.decls|, name) == Some(t)
  {
    assert forall i :: 0 <= i < |em.decls| ==> em1.decls[i] == em.decls[i];
    PutSpec(em1, Name(FSpec, em.n + 1), body, t);
  }

  // ---- the generated program ----

  /** All of a function's arguments resolve to their translations. */
  predicate ArgsResolve(decls: seq<Decl>, bodies: seq<Body>, ns: seq<Node>) {
    |bodies| == |ns| && forall i :: 0 <= i < |ns| ==> Resolve(decls, |decls|, bodies[i]) == Some(Translate(ns[i]))
  }

  lemma ArgsGrow(em: Em, em1: Em, bodies: seq<Body>, ns: seq<Node>)
    requires Follows(em, em1) && ArgsResolve(em.decls, bodies, ns)
    ensures ArgsResolve(em1.decls, bodies, ns)
  {
    FollowsGrown(em, em1);
    forall i | 0 <= i < |ns| ensures Resolve(em1.decls, |em1.decls|, bodies[i]) == Some(Translate(ns[i])) {
      ResolveGrows(em.decls, |em.decls|, em1.decls, |em1.decls|, bodies[i]);
    }
  }

  lemma {:induction false} EmitArgsResolve(ns: seq<Node>, em: Em)
    requires Numbered(em)
    ensures var (bs, em1) := EmitArgs(ns, em); Numbered(em1) && Follows(em, em1) && ArgsResolve(em1.decls, bs, ns)
    decreases |ns|
  {
    if ns != [] {
      EmitArgResolves(ns[0], em);
      var (b, em1) := EmitArg(ns[0], em);
      EmitArgsResolve(ns[1..], em1);
      var (rest, em2) := EmitArgs(ns[1..], em1);
      FollowsTwice(em, em1, em2);
      FollowsGrown(em1, em2);
      ResolveGrows(em1.decls, |em1.decls|, em2.decls, |em2.decls|, b);
      hide EmitArg, Resolve, Translate, Numbered, Follows;
    }
  }

  /** A spec describes a function: name, return, and arguments. */
  predicate Describes(decls: seq<Decl>, spec: SpecDef, f: Function) {
    spec.name == f.name && spec.ret == RetOf(f.ret) && ArgsResolve(decls, spec.args, f.args)
  }

  lemma {:induction false} EmitFunctionsDescribe(fs: seq<Function>, em: Em)
    requires Numbered(em)
    ensures var (specs, em1) := EmitFunctions(fs, em);
      && Numbered(em1) && Follows(em, em1) && |specs| == |fs|
      && forall i :: 0 <= i < |fs| ==> Describes(em1.decls, specs[i], fs[i])
    decreases |fs|
  {
    if fs != [] {
      EmitArgsResolve(fs[0].args, em);
      var (args, em1) := EmitArgs(fs[0].args, em);
      EmitFunctionsDescribe(fs[1..], em1);
      var (rest, em2) := EmitFunctions(fs[1..], em1);
      FollowsTwice(em, em1, em2);
      ArgsGrow(em1, em2, args, fs[0].args);
      hide EmitArgs, ArgsResolve, Numbered, Follows;
    }
  }

  predicate UniqueNames(decls: seq<Decl>) {
    forall i, j :: 0 <= i < j < |decls| ==> decls[i].name != decls[j].name
  }

  /**
   The generated file: names are unique, and each accepted function's spec, read through all
   the declarations of the file, is the direct translation of its description.
   */
  lemma GeneratedProgram(fs: seq<Function>, excluded: set<nat>)
    ensures var fns := Accepted(fs, excluded); var (specs, em) := EmitFunctions(fns, Em([], 0));
      && UniqueNames(em.decls) && |specs| == |fns|
      && forall i :: 0 <= i < |fns| ==> IsMarshalable(fns[i], excluded) && Describes(em.decls, specs[i], fns[i])
  {
    AcceptedOnly(fs, excluded);
    EmitFunctionsDescribe(Accepted(fs, excluded), Em([], 0));
    hide Describes, EmitFunctions, IsMarshalable, Accepted;
  }

  lemma {:induction false} AcceptedOnly(fs: seq<Function>, excluded: set<nat>)
    ensures forall f :: f in Accepted(fs, excluded) <==> f in fs && IsMarshalable(f, excluded)
    decreases |fs|
  {
    if fs != [] {
      AcceptedOnly(fs[1..], excluded);
      assert forall f :: f in fs <==> f == fs[0] || f in fs[1..];
    }
  }

  // ---- what acceptance is for ----

  /** No pointer that is followed has a size the runtime would have to guess. */
  predicate Sized(t: Tree, a: Node)
    decreases a
  {
    a.kind != Ptr
    || (&& t.PtrT?
        && (t.size == SizeNone ==> a.sizeKind == SaysNone || a.sizeKind == Na)
        && (t.to.ElementT? ==> a.pointee != [] && Sized(t.to.element, a.pointee[0]))
        && (t.to.LayoutT? ==> a.pointee != [] && SizedFields(t.to.fields, a.pointee[0].fields)))
  }

  predicate SizedFields(ts: seq<FieldT>, fs: seq<Node>)
    decreases fs
  {
    |ts| == |fs| && (fs == [] || (Sized(ts[0].spec, fs[0]) && SizedFields(ts[1..], fs[1..])))
  }

  lemma {:induction false} WalkSizes(a: Node)
    requires Walk(a)
    ensures Sized(Translate(a), a)
    decreases a
  {
    if a.kind == Ptr && a.pointee != [] {
      assert Walk(a.pointee[0]);
      if a.sizeKind == PtrArray {
        WalkSizes(a.pointee[0]);
      } else if a.pointee[0].kind == Struct {
        WalkSizesFields(a.pointee[0].fields);
      }
    }
  }

  lemma {:induction false} WalkSizesFields(fs: seq<Node>)
    requires WalkAll(fs)
    ensures SizedFields(TranslateFields(fs), fs)
    decreases fs
  {
    if fs != [] {
      WalkSizes(fs[0]);
      WalkSizesFields(fs[1..]);
    }
  }
}
