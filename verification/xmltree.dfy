/** XML as the configuration classes use it: elements are written field by field and
    read back by looking up children by name. Character data never contains markup,
    and turning text into a tree of elements is left to an XML library. */
module XmlTree {
  import opened Resources
  import D = Decimal

  /** The element names of a server tree. */
  datatype Tag =
    | OwnerTag | MaxShareCount | SharedTag | AllocationBias | Hostname | Index
    | ServerTag | ServerNumber | ServerType | CmdArg | ModuleTag | ExtensionOption | CombineFramebuffers
    | KeyboardTag | MouseTag | TypeTag | Driver | OptionTag | PhysAddr | NameTag | ValueTag
    | Framebuffer | Properties | XTag | YTag | WidthTag | HeightTag | StereoTag | RotateTag | GpuCombiner
    | SliTag | Gpu0Tag | Gpu1Tag | ModeTag
    | GpuTag | SharedServerIndex | ModelTag | BusIdTag | UseScanOut | AllowNoScanOut | AllowStereo | VendorTag
    | ScanoutTag | PortIndex | DisplayDevice | AreaTag | ScanoutCaps | Limits | MaxWidth | MaxHeight

  datatype Xml = Elem(tag: Tag, text: string, kids: seq<Xml>)

  /** The outcome of reading: the readers raise an error for what they do not accept. */
  datatype Reading<+T> = Got(value: T) | Bad {
    predicate IsFailure() { Bad? }
    function PropagateFailure<U>(): Reading<U>
      requires IsFailure()
    {
      Bad
    }
    function Extract(): T
      requires !IsFailure()
    {
      value
    }
  }

  function Need(c: bool): Reading<bool> { if c then Got(true) else Bad }

  function OrElse<T>(o: Option<T>, d: T): T { if o.Some? then o.value else d }

  // ------------------------------------------------------------- numbers

  function ShowInt(n: int): string { if n < 0 then "-" + D.Dec(-n) else D.Dec(n) }

  function ParseInt(s: string): Reading<int> {
    if D.Numeral(s) then Got(D.Read(s))
    else if s != "" && s[0] == '-' && D.Numeral(s[1..]) then Got(0 - D.Read(s[1..]))
    else Bad
  }

  lemma ParseShow(n: int)
    ensures ShowInt(n) != "" && ParseInt(ShowInt(n)) == Got(n)
  {
    D.ReadDec(if n < 0 then -n else n);
    if n < 0 { assert ShowInt(n)[0] == '-' && ShowInt(n)[1..] == D.Dec(-n); }
  }

  // ------------------------------------------------------------- writing

  function Leaf(t: Tag, s: string): Xml { Elem(t, s, []) }

  function Num(t: Tag, n: int): Xml { Leaf(t, ShowInt(n)) }

  function Flag(b: bool): int { if b then 1 else 0 }

  function OptText(t: Tag, v: Option<string>): seq<Xml> { if v.Some? then [Leaf(t, v.value)] else [] }

  function OptNum(t: Tag, v: Option<int>): seq<Xml> { if v.Some? then [Num(t, v.value)] else [] }

  function OptFlag(t: Tag, v: Option<bool>): seq<Xml> { if v.Some? then [Num(t, Flag(v.value))] else [] }

  function Leaves(t: Tag, ss: seq<string>): seq<Xml> { seq(|ss|, i requires 0 <= i < |ss| => Leaf(t, ss[i])) }

  /** The children of an element: its fields, in the order they are written. */
  function Assemble(order: seq<Tag>, fields: Tag -> seq<Xml>): seq<Xml> {
    if order == [] then [] else fields(order[0]) + Assemble(order[1..], fields)
  }

  // ------------------------------------------------------------- reading

  /** The children with one name. */
  function Named(kids: seq<Xml>, t: Tag): seq<Xml> {
    if kids == [] then [] else (if kids[0].tag == t then [kids[0]] else []) + Named(kids[1..], t)
  }

  lemma {:induction false} NamedAreKids(kids: seq<Xml>, t: Tag)
    ensures forall x <- Named(kids, t) :: x in kids && x.tag == t
  {
    if kids != [] { NamedAreKids(kids[1..], t); }
  }

  /** The children of an element, looked up by name. */
  function Kids(e: Xml): Tag -> seq<Xml> { t => Named(e.kids, t) }

  /** The value of an element; an empty element has none. */
  function TextOf(e: Xml): Reading<string> { if e.kids == [] && e.text != "" then Got(e.text) else Bad }

  function IntOf(e: Xml): Reading<int> {
    var s :- TextOf(e);
    ParseInt(s)
  }

  // Of several children with the same name the first one counts.

  function TextIn(es: seq<Xml>): Reading<Option<string>> {
    if es == [] then Got(None)
    else
      var s :- TextOf(es[0]);
      Got(Some(s))
  }

  function IntIn(es: seq<Xml>): Reading<Option<int>> {
    if es == [] then Got(None)
    else
      var n :- IntOf(es[0]);
      Got(Some(n))
  }

  function FlagIn(es: seq<Xml>): Reading<Option<bool>> {
    var n :- IntIn(es);
    Got(if n.Some? then Some(n.value != 0) else None)
  }

  function NeedText(es: seq<Xml>): Reading<string> { if es == [] then Bad else TextOf(es[0]) }

  function NeedInt(es: seq<Xml>): Reading<int> { if es == [] then Bad else IntOf(es[0]) }

  function Texts(es: seq<Xml>): Reading<seq<string>> {
    if es == [] then Got([])
    else
      var s :- TextOf(es[0]);
      var rest :- Texts(es[1..]);
      Got([s] + rest)
  }

  // ------------------------------------------------- what is written is read

  ghost predicate AllTagged(es: seq<Xml>, t: Tag) { forall e <- es :: e.tag == t }

  lemma {:induction false} NamedConcat(a: seq<Xml>, b: seq<Xml>, t: Tag)
    ensures Named(a + b, t) == Named(a, t) + Named(b, t)
  {
    if a == [] {
      assert a + b == b;
    } else {
      assert (a + b)[0] == a[0] && (a + b)[1..] == a[1..] + b;
      NamedConcat(a[1..], b, t);
    }
  }

  lemma {:induction false} NamedTagged(es: seq<Xml>, u: Tag, t: Tag)
    requires AllTagged(es, u)
    ensures Named(es, t) == if t == u then es else []
  {
    if es != [] {
      assert es[0] in es && AllTagged(es[1..], u);
      NamedTagged(es[1..], u, t);
      assert es == [es[0]] + es[1..];
    }
  }

  predicate NoTwice(order: seq<Tag>) { forall i, j | 0 <= i < j < |order| :: order[i] != order[j] }

  ghost predicate WellTagged(fields: Tag -> seq<Xml>) { forall t :: AllTagged(fields(t), t) }

  /** Looking up a name gives back the field that was written under it. */
  lemma {:induction false} FieldsFound(order: seq<Tag>, fields: Tag -> seq<Xml>, t: Tag)
    requires WellTagged(fields) && NoTwice(order)
    ensures Named(Assemble(order, fields), t) == if t in order then fields(t) else []
  {
    if order != [] {
      var u, rest := order[0], order[1..];
      NamedConcat(fields(u), Assemble(rest, fields), t);
      assert AllTagged(fields(u), u);
      NamedTagged(fields(u), u, t);
      assert order == [u] + rest;
      assert forall i | 0 <= i < |rest| :: rest[i] == order[i + 1];
      FieldsFound(rest, fields, t);
    }
  }

  /** The fields carry their names, and order lists those there are, once each. */
  ghost predicate Listed(order: seq<Tag>, fields: Tag -> seq<Xml>) {
    NoTwice(order) && forall t :: AllTagged(fields(t), t) && (t !in order ==> fields(t) == [])
  }

  /** Looking up children gives these fields. */
  ghost predicate Looks(e: Xml, fields: Tag -> seq<Xml>) { forall t :: Kids(e)(t) == fields(t) }

  /** Every field is found under its name. */
  lemma AllFound(root: Tag, order: seq<Tag>, fields: Tag -> seq<Xml>)
    requires Listed(order, fields)
    ensures Looks(Elem(root, "", Assemble(order, fields)), fields)
  {
    forall t ensures Kids(Elem(root, "", Assemble(order, fields)))(t) == fields(t) {
      FieldsFound(order, fields, t);
    }
  }

  lemma TextInIs(t: Tag, v: Option<string>)
    ensures TextIn(OptText(t, v)) == if v == Some("") then Bad else Got(v)
  {
  }

  lemma NumIs(t: Tag, n: int)
    ensures IntOf(Num(t, n)) == Got(n)
  {
    ParseShow(n);
  }

  lemma IntInIs(t: Tag, v: Option<int>)
    ensures IntIn(OptNum(t, v)) == Got(v)
  {
    if v.Some? { NumIs(t, v.value); }
  }

  lemma FlagInIs(t: Tag, v: Option<bool>)
    ensures FlagIn(OptFlag(t, v)) == Got(v)
  {
    if v.Some? { NumIs(t, Flag(v.value)); }
  }

  predicate NoneEmpty(ss: seq<string>) { "" !in ss }

  lemma {:induction false} TextsAre(t: Tag, ss: seq<string>)
    ensures Texts(Leaves(t, ss)) == if NoneEmpty(ss) then Got(ss) else Bad
  {
    if ss != [] {
      assert ss == [ss[0]] + ss[1..];
      assert Leaves(t, ss)[1..] == Leaves(t, ss[1..]);
      TextsAre(t, ss[1..]);
    }
  }

  // --------------------------------------------------------- dictionaries

  predicate Increasing<V>(d: seq<(int, V)>) { forall i, j | 0 <= i < j < |d| :: d[i].0 < d[j].0 }

  /** A dictionary with number keys, listed by key. */
  type Dict<V> = d: seq<(int, V)> | Increasing(d)

  function Put<V>(d: Dict<V>, k: int, v: V): (r: Dict<V>)
    ensures forall e <- r :: e == (k, v) || e in d
  {
    if d == [] || k < d[0].0 then [(k, v)] + d
    else if k == d[0].0 then [(k, v)] + d[1..]
    else
      assert forall e <- d[1..] :: d[0].0 < e.0;
      [d[0]] + Put(d[1..], k, v)
  }

  lemma {:induction false} PutLast<V>(d: Dict<V>, k: int, v: V)
    requires forall e <- d :: e.0 < k
    ensures Put(d, k, v) == d + [(k, v)]
  {
    if d != [] {
      assert d[0] in d;
      PutLast(d[1..], k, v);
      assert d == [d[0]] + d[1..];
    }
  }

  predicate DistinctNames<V>(d: seq<(string, V)>) { forall i, j | 0 <= i < j < |d| :: d[i].0 != d[j].0 }

  /** A dictionary with text keys, in some order. */
  type Names<V> = d: seq<(string, V)> | DistinctNames(d)

  function PutName<V>(d: Names<V>, k: string, v: V): (r: Names<V>)
    ensures forall e <- r :: e == (k, v) || e in d
  {
    if d == [] then [(k, v)]
    else if k == d[0].0 then [(k, v)] + d[1..]
    else
      assert forall e <- d[1..] :: d[0].0 != e.0;
      [d[0]] + PutName(d[1..], k, v)
  }

  lemma {:induction false} PutNewName<V>(d: Names<V>, k: string, v: V)
    requires forall e <- d :: e.0 != k
    ensures PutName(d, k, v) == d + [(k, v)]
  {
    if d != [] {
      assert d[0] in d;
      PutNewName(d[1..], k, v);
      assert d == [d[0]] + d[1..];
    }
  }
}
