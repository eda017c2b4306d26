/** The parts of a server tree that hold no further servers: for each, what it is
    written as, how it is read, which values can be read back, and what comes back. */
module ServerParts {
  import opened Resources
  import opened XmlTree

  // ------------------------------------------------ what resources have in common

  datatype Common = Common(owners: seq<nat>, limit: ShareLimit, shared: bool, bias: Option<int>,
                           host: Option<string>, idx: Option<int>)

  function Owners(us: seq<nat>): seq<Xml> { seq(|us|, i requires 0 <= i < |us| => Num(OwnerTag, us[i])) }

  /** Each class writes the index under a name of its own. */
  function CommonField(c: Common, t: Tag): seq<Xml> {
    match t
    case OwnerTag => Owners(c.owners)
    case MaxShareCount => [Num(t, c.limit)]
    case SharedTag => [Num(t, Flag(c.shared))]
    case AllocationBias => OptNum(t, c.bias)
    case Hostname => OptText(t, c.host)
    case _ => []
  }

  function ReadOwners(es: seq<Xml>): Reading<seq<nat>> {
    if es == [] then Got([])
    else
      var u :- IntOf(es[0]);
      var rest :- ReadOwners(es[1..]);
      if u < 0 then Bad else Got([u as nat] + rest)
  }

  function ReadCommon(kids: Tag -> seq<Xml>, idxTag: Tag): (r: Reading<Common>)
    ensures r.Got? ==> r.value.bias.Some? && CommonOk(r.value)
  {
    var owners :- ReadOwners(kids(OwnerTag));
    var limit :- IntIn(kids(MaxShareCount));
    var shared :- FlagIn(kids(SharedTag));
    var bias :- IntIn(kids(AllocationBias));
    var host :- TextIn(kids(Hostname));
    var idx :- IntIn(kids(idxTag));
    if limit.Some? && limit.value < 1 then Bad
    else Got(Common(owners, if limit.Some? then limit.value else 1, OrElse(shared, false), Some(OrElse(bias, 0)), host, idx))
  }

  predicate CommonOk(c: Common) { c.host != Some("") }

  /** A missing bias comes back as none at all, that is 0. */
  function CommonBack(c: Common): Common { c.(bias := Some(OrElse(c.bias, 0))) }

  ghost predicate ShowsCommon(kids: Tag -> seq<Xml>, c: Common, idxTag: Tag) {
    && kids(OwnerTag) == Owners(c.owners)
    && kids(MaxShareCount) == [Num(MaxShareCount, c.limit)] && kids(SharedTag) == [Num(SharedTag, Flag(c.shared))]
    && kids(AllocationBias) == OptNum(AllocationBias, c.bias) && kids(Hostname) == OptText(Hostname, c.host)
    && kids(idxTag) == OptNum(idxTag, c.idx)
  }

  lemma {:induction false} OwnersRead(us: seq<nat>)
    ensures ReadOwners(Owners(us)) == Got(us)
  {
    if us != [] {
      NumIs(OwnerTag, us[0]);
      assert Owners(us)[1..] == Owners(us[1..]);
      OwnersRead(us[1..]);
      assert us == [us[0]] + us[1..];
    }
  }

  lemma CommonRead(kids: Tag -> seq<Xml>, c: Common, idxTag: Tag)
    requires ShowsCommon(kids, c, idxTag)
    ensures ReadCommon(kids, idxTag) == if CommonOk(c) then Got(CommonBack(c)) else Bad
  {
    OwnersRead(c.owners);
    NumIs(MaxShareCount, c.limit);
    NumIs(SharedTag, Flag(c.shared));
    IntInIs(AllocationBias, c.bias);
    TextInIs(Hostname, c.host);
    IntInIs(idxTag, c.idx);
  }

  /** What is written tells what was there. */
  lemma CommonTold(kids: Tag -> seq<Xml>, c: Common, d: Common, idxTag: Tag)
    requires ShowsCommon(kids, c, idxTag) && ShowsCommon(kids, d, idxTag)
    ensures c == d
  {
    OwnersRead(c.owners);
    OwnersRead(d.owners);
    NumIs(MaxShareCount, c.limit);
    NumIs(MaxShareCount, d.limit);
    NumIs(SharedTag, Flag(c.shared));
    NumIs(SharedTag, Flag(d.shared));
    IntInIs(AllocationBias, c.bias);
    IntInIs(AllocationBias, d.bias);
    IntInIs(idxTag, c.idx);
    IntInIs(idxTag, d.idx);
  }

  // ------------------------------------------------------------------- pairs

  const PairOrder: seq<Tag> := [NameTag, ValueTag]

  function PairField(p: (string, Option<string>), t: Tag): seq<Xml> {
    match t
    case NameTag => [Leaf(t, p.0)]
    case ValueTag => OptText(t, p.1)
    case _ => []
  }

  function PairFields(p: (string, Option<string>)): Tag -> seq<Xml> { t => PairField(p, t) }

  /** A name with or without a value. */
  function PairElem(t: Tag, p: (string, Option<string>)): Xml { Elem(t, "", Assemble(PairOrder, PairFields(p))) }

  function PairElems(t: Tag, ps: seq<(string, Option<string>)>): seq<Xml> {
    seq(|ps|, i requires 0 <= i < |ps| => PairElem(t, ps[i]))
  }

  function ReadPair(kids: Tag -> seq<Xml>): Reading<(string, Option<string>)> {
    var name :- NeedText(kids(NameTag));
    var value :- TextIn(kids(ValueTag));
    Got((name, value))
  }

  function ReadPairs(es: seq<Xml>): (r: Reading<seq<(string, Option<string>)>>)
    ensures r.Got? ==> PairsOk(r.value)
  {
    if es == [] then Got([])
    else
      var p :- ReadPair(Kids(es[0]));
      var rest :- ReadPairs(es[1..]);
      Got([p] + rest)
  }

  predicate PairsOk(ps: seq<(string, Option<string>)>) { forall p <- ps :: p.0 != "" && p.1 != Some("") }

  lemma PairShown(p: (string, Option<string>), kids: Tag -> seq<Xml>)
    requires forall t :: kids(t) == PairFields(p)(t)
    ensures ReadPair(kids) == if p.0 != "" && p.1 != Some("") then Got(p) else Bad
  {
    assert kids(NameTag) == [Leaf(NameTag, p.0)] && kids(ValueTag) == OptText(ValueTag, p.1);
    TextInIs(ValueTag, p.1);
  }

  lemma PairRead(t: Tag, p: (string, Option<string>))
    ensures ReadPair(Kids(PairElem(t, p))) == if p.0 != "" && p.1 != Some("") then Got(p) else Bad
  {
    forall u ensures AllTagged(PairFields(p)(u), u) && (u !in PairOrder ==> PairFields(p)(u) == []) {
      assert PairFields(p)(u) == PairField(p, u);
    }
    AllFound(t, PairOrder, PairFields(p));
    PairShown(p, Kids(PairElem(t, p)));
  }

  lemma {:induction false} PairsRead(t: Tag, ps: seq<(string, Option<string>)>)
    ensures ReadPairs(PairElems(t, ps)) == if PairsOk(ps) then Got(ps) else Bad
  {
    if ps != [] {
      PairRead(t, ps[0]);
      assert PairElems(t, ps)[1..] == PairElems(t, ps[1..]);
      PairsRead(t, ps[1..]);
      assert ps == [ps[0]] + ps[1..];
    }
  }

  /** Later values of a name replace earlier ones. */
  function Collect(d: Names<Option<string>>, ps: seq<(string, Option<string>)>): (r: Names<Option<string>>)
    ensures PairsOk(d) && PairsOk(ps) ==> PairsOk(r)
    decreases |ps|
  {
    if ps == [] then d
    else
      assert ps == [ps[0]] + ps[1..];
      Collect(PutName(d, ps[0].0, ps[0].1), ps[1..])
  }

  lemma {:induction false} CollectNames(d: Names<Option<string>>, ps: seq<(string, Option<string>)>)
    requires DistinctNames(d + ps)
    ensures Collect(d, ps) == d + ps
    decreases |ps|
  {
    if ps != [] {
      forall e <- d ensures e.0 != ps[0].0 {
        var i :| 0 <= i < |d| && d[i] == e;
        assert (d + ps)[i] == e && (d + ps)[|d|] == ps[0];
      }
      PutNewName(d, ps[0].0, ps[0].1);
      assert (d + [ps[0]]) + ps[1..] == d + ps;
      CollectNames(d + [ps[0]], ps[1..]);
    } else {
      assert d + ps == d;
    }
  }

  /** Every pair has a value. */
  predicate Valued(ps: seq<(string, Option<string>)>) { forall p <- ps :: p.1.Some? }

  // ------------------------------------------------------- keyboards and mice

  datatype InputDesc = InputDesc(common: Common, typ: Option<string>, driver: Option<string>,
                                 options: seq<(string, Option<string>)>, physAddr: Option<string>)

  const InputOrder: seq<Tag> := [OwnerTag, MaxShareCount, SharedTag, AllocationBias, Index, Hostname, TypeTag, Driver, OptionTag, PhysAddr]

  function InputField(d: InputDesc, t: Tag): seq<Xml> {
    match t
    case TypeTag => OptText(t, d.typ)
    case Driver => OptText(t, d.driver)
    case OptionTag => PairElems(t, d.options)
    case PhysAddr => OptText(t, d.physAddr)
    case Index => OptNum(t, d.common.idx)
    case _ => CommonField(d.common, t)
  }

  function InputFields(d: InputDesc): Tag -> seq<Xml> { t => InputField(d, t) }

  function WriteInput(root: Tag, d: InputDesc): Xml { Elem(root, "", Assemble(InputOrder, InputFields(d))) }

  /** Each option is read together with the driver, which must then be given. */
  function ReadInput(kids: Tag -> seq<Xml>): (r: Reading<InputDesc>)
    ensures r.Got? ==> InputOk(r.value) && r.value.common.bias.Some?
  {
    var common :- ReadCommon(kids, Index);
    var typ :- TextIn(kids(TypeTag));
    var driver :- TextIn(kids(Driver));
    var options :- ReadPairs(kids(OptionTag));
    var physAddr :- TextIn(kids(PhysAddr));
    var d := InputDesc(common, typ, driver, options, physAddr);
    if InputOk(d) then Got(d) else Bad
  }

  predicate InputOk(d: InputDesc) {
    && CommonOk(d.common) && d.typ != Some("") && d.driver != Some("") && d.physAddr != Some("")
    && PairsOk(d.options) && Valued(d.options) && (d.options != [] ==> d.driver.Some?)
  }

  function InputBack(d: InputDesc): InputDesc { d.(common := CommonBack(d.common)) }

  lemma InputListed(d: InputDesc)
    ensures Listed(InputOrder, InputFields(d))
  {
    forall t ensures AllTagged(InputFields(d)(t), t) && (t !in InputOrder ==> InputFields(d)(t) == []) {
      assert InputFields(d)(t) == InputField(d, t);
    }
  }

  lemma InputShown(d: InputDesc, kids: Tag -> seq<Xml>)
    requires forall t :: kids(t) == InputFields(d)(t)
    ensures kids(TypeTag) == OptText(TypeTag, d.typ) && kids(Driver) == OptText(Driver, d.driver)
    ensures kids(OptionTag) == PairElems(OptionTag, d.options) && kids(PhysAddr) == OptText(PhysAddr, d.physAddr)
  {
  }

  lemma InputCommonShown(d: InputDesc, kids: Tag -> seq<Xml>)
    requires forall t :: kids(t) == InputFields(d)(t)
    ensures ShowsCommon(kids, d.common, Index)
  {
  }

  lemma InputFieldsRead(d: InputDesc, kids: Tag -> seq<Xml>)
    requires forall t :: kids(t) == InputFields(d)(t)
    ensures ReadInput(kids) == if InputOk(d) then Got(InputBack(d)) else Bad
  {
    InputShown(d, kids);
    InputCommonShown(d, kids);
    CommonRead(kids, d.common, Index);
    TextInIs(TypeTag, d.typ);
    TextInIs(Driver, d.driver);
    PairsRead(OptionTag, d.options);
    TextInIs(PhysAddr, d.physAddr);
  }

  lemma InputRead(root: Tag, d: InputDesc)
    ensures ReadInput(Kids(WriteInput(root, d))) == if InputOk(d) then Got(InputBack(d)) else Bad
  {
    InputListed(d);
    AllFound(root, InputOrder, InputFields(d));
    InputFieldsRead(d, Kids(WriteInput(root, d)));
  }

  // ---------------------------------------------------------------------- SLI

  datatype SliDesc = SliDesc(common: Common, typ: Option<string>, gpu0: Option<int>, gpu1: Option<int>, mode: Option<string>)

  const SliOrder: seq<Tag> := [OwnerTag, MaxShareCount, SharedTag, AllocationBias, Hostname, Index, TypeTag, Gpu0Tag, Gpu1Tag, ModeTag]

  /** The GPUs an SLI bridge connects are written only in detail. */
  function SliField(s: SliDesc, detailed: bool, t: Tag): seq<Xml> {
    match t
    case TypeTag => OptText(t, s.typ)
    case Gpu0Tag => if detailed then OptNum(t, s.gpu0) else []
    case Gpu1Tag => if detailed then OptNum(t, s.gpu1) else []
    case ModeTag => OptText(t, s.mode)
    case Index => OptNum(t, s.common.idx)
    case _ => CommonField(s.common, t)
  }

  function SliFields(s: SliDesc, detailed: bool): Tag -> seq<Xml> { t => SliField(s, detailed, t) }

  function WriteSli(s: SliDesc, detailed: bool): Xml { Elem(SliTag, "", Assemble(SliOrder, SliFields(s, detailed))) }

  function ReadSli(kids: Tag -> seq<Xml>): (r: Reading<SliDesc>)
    ensures r.Got? ==> SliOk(r.value) && r.value.common.bias.Some?
  {
    var common :- ReadCommon(kids, Index);
    var typ :- TextIn(kids(TypeTag));
    var gpu0 :- IntIn(kids(Gpu0Tag));
    var gpu1 :- IntIn(kids(Gpu1Tag));
    var mode :- TextIn(kids(ModeTag));
    if SliModeOk(typ, mode) then Got(SliDesc(common, typ, gpu0, gpu1, mode)) else Bad
  }

  /** Mosaic mode is for QuadroPlex only, though an SLI of no type may have it. */
  predicate SliModeOk(typ: Option<string>, mode: Option<string>) {
    && (typ.Some? ==> typ.value == "discrete" || typ.value == "quadroplex")
    && (mode.Some? ==> mode.value in ["auto", "SFR", "AFR", "AA", "mosaic"])
    && (typ.Some? && mode == Some("mosaic") ==> typ.value == "quadroplex")
  }

  predicate SliOk(s: SliDesc) { CommonOk(s.common) && SliModeOk(s.typ, s.mode) }

  function SliBack(s: SliDesc, detailed: bool): SliDesc {
    s.(common := CommonBack(s.common), gpu0 := if detailed then s.gpu0 else None, gpu1 := if detailed then s.gpu1 else None)
  }

  lemma SliListed(s: SliDesc, detailed: bool)
    ensures Listed(SliOrder, SliFields(s, detailed))
  {
    forall t ensures AllTagged(SliFields(s, detailed)(t), t) && (t !in SliOrder ==> SliFields(s, detailed)(t) == []) {
      assert SliFields(s, detailed)(t) == SliField(s, detailed, t);
    }
  }

  lemma SliShown(s: SliDesc, detailed: bool, kids: Tag -> seq<Xml>)
    requires forall t :: kids(t) == SliFields(s, detailed)(t)
    ensures kids(TypeTag) == OptText(TypeTag, s.typ) && kids(ModeTag) == OptText(ModeTag, s.mode)
    ensures kids(Gpu0Tag) == OptNum(Gpu0Tag, if detailed then s.gpu0 else None)
    ensures kids(Gpu1Tag) == OptNum(Gpu1Tag, if detailed then s.gpu1 else None)
  {
  }

  lemma SliCommonShown(s: SliDesc, detailed: bool, kids: Tag -> seq<Xml>)
    requires forall t :: kids(t) == SliFields(s, detailed)(t)
    ensures ShowsCommon(kids, s.common, Index)
  {
  }

  lemma SliFieldsRead(s: SliDesc, detailed: bool, kids: Tag -> seq<Xml>)
    requires ShowsCommon(kids, s.common, Index)
    requires kids(TypeTag) == OptText(TypeTag, s.typ) && kids(ModeTag) == OptText(ModeTag, s.mode)
    requires kids(Gpu0Tag) == OptNum(Gpu0Tag, if detailed then s.gpu0 else None)
    requires kids(Gpu1Tag) == OptNum(Gpu1Tag, if detailed then s.gpu1 else None)
    ensures ReadSli(kids) == if SliOk(s) then Got(SliBack(s, detailed)) else Bad
  {
    CommonRead(kids, s.common, Index);
    TextInIs(TypeTag, s.typ);
    IntInIs(Gpu0Tag, SliBack(s, detailed).gpu0);
    IntInIs(Gpu1Tag, SliBack(s, detailed).gpu1);
    TextInIs(ModeTag, s.mode);
  }

  lemma SliKidsRead(s: SliDesc, detailed: bool, kids: Tag -> seq<Xml>)
    requires forall t :: kids(t) == SliFields(s, detailed)(t)
    ensures ReadSli(kids) == if SliOk(s) then Got(SliBack(s, detailed)) else Bad
  {
    SliShown(s, detailed, kids);
    SliCommonShown(s, detailed, kids);
    SliFieldsRead(s, detailed, kids);
  }

  lemma SliRead(s: SliDesc, detailed: bool)
    ensures ReadSli(Kids(WriteSli(s, detailed))) == if SliOk(s) then Got(SliBack(s, detailed)) else Bad
  {
    SliListed(s, detailed);
    AllFound(SliTag, SliOrder, SliFields(s, detailed));
    SliKidsRead(s, detailed, Kids(WriteSli(s, detailed)));
  }

  // ------------------------------------------------- numbered entries of a GPU

  function WriteAll<V>(d: seq<(int, V)>, write: ((int, V)) -> Xml): seq<Xml> {
    seq(|d|, i requires 0 <= i < |d| => write(d[i]))
  }

  function ReadEach<V>(es: seq<Xml>, read: Xml -> Reading<V>): Reading<seq<V>> {
    if forall i | 0 <= i < |es| :: read(es[i]).Got? then
      Got(seq(|es|, i requires 0 <= i < |es| && read(es[i]).Got? => read(es[i]).value))
    else Bad
  }

  /** Later entries replace earlier ones of the same number. */
  function PutAll<V>(d: Dict<V>, l: seq<(int, V)>): (r: Dict<V>)
    ensures forall e <- r :: e in d || e in l
    decreases |l|
  {
    if l == [] then d
    else
      assert (l[0].0, l[0].1) == l[0];
      PutAll(Put(d, l[0].0, l[0].1), l[1..])
  }

  lemma EachRead<V>(l: seq<(int, V)>, write: ((int, V)) -> Xml, read: Xml -> Reading<(int, V)>, ok: ((int, V)) -> bool)
    requires forall e <- l :: read(write(e)) == if ok(e) then Got(e) else Bad
    ensures ReadEach(WriteAll(l, write), read) == if forall e <- l :: ok(e) then Got(l) else Bad
  {
    var es := WriteAll(l, write);
    forall i | 0 <= i < |l| ensures read(es[i]) == if ok(l[i]) then Got(l[i]) else Bad { assert l[i] in l; }
    if forall e <- l :: ok(e) {
      forall i | 0 <= i < |l| ensures read(es[i]) == Got(l[i]) { assert l[i] in l; }
      assert ReadEach(es, read).Got? && ReadEach(es, read).value == l;
    } else {
      var e :| e in l && !ok(e);
      var i :| 0 <= i < |l| && l[i] == e;
      assert read(es[i]).Bad?;
    }
  }

  lemma {:induction false} PutAllKeeps<V>(d: Dict<V>, l: seq<(int, V)>)
    requires Increasing(d + l)
    ensures PutAll(d, l) == d + l
    decreases |l|
  {
    if l == [] {
      assert d + l == d;
    } else {
      forall e <- d ensures e.0 < l[0].0 {
        var i :| 0 <= i < |d| && d[i] == e;
        assert (d + l)[i] == e && (d + l)[|d|] == l[0];
      }
      PutLast(d, l[0].0, l[0].1);
      assert (l[0].0, l[0].1) == l[0];
      assert (d + [l[0]]) + l[1..] == d + l;
      PutAllKeeps(d + [l[0]], l[1..]);
    }
  }

  const CapOrder: seq<Tag> := [Index, TypeTag]

  function CapField(c: (int, seq<string>), t: Tag): seq<Xml> {
    match t
    case Index => [Num(t, c.0)]
    case TypeTag => Leaves(t, c.1)
    case _ => []
  }

  function CapFields(c: (int, seq<string>)): Tag -> seq<Xml> { t => CapField(c, t) }

  /** The types of output a port supports. */
  function WriteCap(c: (int, seq<string>)): Xml { Elem(ScanoutCaps, "", Assemble(CapOrder, CapFields(c))) }

  function ReadCapFields(kids: Tag -> seq<Xml>): Reading<(int, seq<string>)> {
    var idx :- NeedInt(kids(Index));
    var types :- Texts(kids(TypeTag));
    Got((idx, types))
  }

  function ReadCap(e: Xml): Reading<(int, seq<string>)> { ReadCapFields(Kids(e)) }

  predicate CapOk(c: (int, seq<string>)) { NoneEmpty(c.1) }

  lemma CapShown(c: (int, seq<string>), kids: Tag -> seq<Xml>)
    requires forall t :: kids(t) == CapFields(c)(t)
    ensures ReadCapFields(kids) == if CapOk(c) then Got(c) else Bad
  {
    assert kids(Index) == [Num(Index, c.0)] && kids(TypeTag) == Leaves(TypeTag, c.1);
    NumIs(Index, c.0);
    TextsAre(TypeTag, c.1);
  }

  lemma CapRead(c: (int, seq<string>))
    ensures ReadCap(WriteCap(c)) == if CapOk(c) then Got(c) else Bad
  {
    forall t ensures AllTagged(CapFields(c)(t), t) && (t !in CapOrder ==> CapFields(c)(t) == []) {
      assert CapFields(c)(t) == CapField(c, t);
    }
    AllFound(ScanoutCaps, CapOrder, CapFields(c));
    CapShown(c, Kids(WriteCap(c)));
  }

  lemma {:induction false} TextsReadOk(es: seq<Xml>)
    ensures Texts(es).Got? ==> NoneEmpty(Texts(es).value)
  {
    if es != [] { TextsReadOk(es[1..]); }
  }

  datatype Scanout = Scanout(typ: Option<string>, device: string, mode: Option<string>,
                             x: Option<int>, y: Option<int>, width: Option<int>, height: Option<int>)

  const ScanoutOrder: seq<Tag> := [PortIndex, TypeTag, DisplayDevice, ModeTag, AreaTag]
  const AreaOrder: seq<Tag> := [XTag, YTag, WidthTag, HeightTag]

  function AreaField(s: Scanout, t: Tag): seq<Xml> {
    match t
    case XTag => OptNum(t, s.x)
    case YTag => OptNum(t, s.y)
    case WidthTag => OptNum(t, s.width)
    case HeightTag => OptNum(t, s.height)
    case _ => []
  }

  function AreaFields(s: Scanout): Tag -> seq<Xml> { t => AreaField(s, t) }

  function WriteArea(s: Scanout): seq<Xml> {
    var kids := Assemble(AreaOrder, AreaFields(s));
    if kids == [] then [] else [Elem(AreaTag, "", kids)]
  }

  function ScanoutField(c: (int, Scanout), t: Tag): seq<Xml> {
    match t
    case PortIndex => [Num(t, c.0)]
    case TypeTag => OptText(t, c.1.typ)
    case DisplayDevice => [Leaf(t, c.1.device)]
    case ModeTag => OptText(t, c.1.mode)
    case AreaTag => WriteArea(c.1)
    case _ => []
  }

  function ScanoutFields(c: (int, Scanout)): Tag -> seq<Xml> { t => ScanoutField(c, t) }

  function WriteScanout(c: (int, Scanout)): Xml { Elem(ScanoutTag, "", Assemble(ScanoutOrder, ScanoutFields(c))) }

  function ReadAreaFields(kids: Tag -> seq<Xml>): Reading<(Option<int>, Option<int>, Option<int>, Option<int>)> {
    var x :- IntIn(kids(XTag));
    var y :- IntIn(kids(YTag));
    var width :- IntIn(kids(WidthTag));
    var height :- IntIn(kids(HeightTag));
    Got((x, y, width, height))
  }

  function ReadArea(es: seq<Xml>): Reading<(Option<int>, Option<int>, Option<int>, Option<int>)> {
    if es == [] then Got((None, None, None, None)) else ReadAreaFields(Kids(es[0]))
  }

  function ReadScanoutFields(kids: Tag -> seq<Xml>): Reading<(int, Scanout)> {
    var port :- NeedInt(kids(PortIndex));
    var typ :- TextIn(kids(TypeTag));
    var mode :- TextIn(kids(ModeTag));
    var device :- NeedText(kids(DisplayDevice));
    var area :- ReadArea(kids(AreaTag));
    var c := (port, Scanout(typ, device, mode, area.0, area.1, area.2, area.3));
    if ScanoutOk(c) then Got(c) else Bad
  }

  function ReadScanout(e: Xml): Reading<(int, Scanout)> { ReadScanoutFields(Kids(e)) }

  predicate ScanoutOk(c: (int, Scanout)) {
    && c.0 >= 0 && (c.1.typ.Some? ==> c.1.typ.value in ["digital", "analog"])
    && c.1.device != "" && c.1.mode != Some("")
  }

  lemma AreaFieldsRead(s: Scanout, kids: Tag -> seq<Xml>)
    requires forall t :: kids(t) == AreaFields(s)(t)
    ensures ReadAreaFields(kids) == Got((s.x, s.y, s.width, s.height))
  {
    assert kids(XTag) == OptNum(XTag, s.x) && kids(YTag) == OptNum(YTag, s.y);
    assert kids(WidthTag) == OptNum(WidthTag, s.width) && kids(HeightTag) == OptNum(HeightTag, s.height);
    AreaNumsRead(s, kids);
  }

  lemma AreaNumsRead(s: Scanout, kids: Tag -> seq<Xml>)
    requires kids(XTag) == OptNum(XTag, s.x) && kids(YTag) == OptNum(YTag, s.y)
    requires kids(WidthTag) == OptNum(WidthTag, s.width) && kids(HeightTag) == OptNum(HeightTag, s.height)
    ensures ReadAreaFields(kids) == Got((s.x, s.y, s.width, s.height))
  {
    IntInIs(XTag, s.x);
    IntInIs(YTag, s.y);
    IntInIs(WidthTag, s.width);
    IntInIs(HeightTag, s.height);
  }

  lemma AreaListed(s: Scanout)
    ensures Listed(AreaOrder, AreaFields(s))
  {
    forall t ensures AllTagged(AreaFields(s)(t), t) && (t !in AreaOrder ==> AreaFields(s)(t) == []) {
      assert AreaFields(s)(t) == AreaField(s, t);
    }
  }

  lemma AreaElemRead(s: Scanout, e: Xml)
    requires e == Elem(AreaTag, "", Assemble(AreaOrder, AreaFields(s)))
    ensures ReadAreaFields(Kids(e)) == Got((s.x, s.y, s.width, s.height))
  {
    AreaListed(s);
    AllFound(AreaTag, AreaOrder, AreaFields(s));
    AreaFieldsRead(s, Kids(e));
  }

  /** An area without any number is not written, and read as none. */
  lemma AreaRead(s: Scanout)
    ensures ReadArea(WriteArea(s)) == Got((s.x, s.y, s.width, s.height))
  {
    var e := Elem(AreaTag, "", Assemble(AreaOrder, AreaFields(s)));
    AreaElemRead(s, e);
    if e.kids == [] { NoAreaFields(e); }
  }

  lemma NoAreaFields(e: Xml)
    requires e.kids == []
    ensures ReadAreaFields(Kids(e)) == Got((None, None, None, None))
  {
  }

  lemma ScanoutShown(c: (int, Scanout), kids: Tag -> seq<Xml>)
    requires forall t :: kids(t) == ScanoutFields(c)(t)
    ensures kids(PortIndex) == [Num(PortIndex, c.0)] && kids(TypeTag) == OptText(TypeTag, c.1.typ)
    ensures kids(DisplayDevice) == [Leaf(DisplayDevice, c.1.device)] && kids(ModeTag) == OptText(ModeTag, c.1.mode)
  {
  }

  lemma AreaShown(c: (int, Scanout), kids: Tag -> seq<Xml>)
    requires forall t :: kids(t) == ScanoutFields(c)(t)
    ensures kids(AreaTag) == WriteArea(c.1)
  {
  }

  lemma ScanoutFieldsRead(c: (int, Scanout), kids: Tag -> seq<Xml>)
    requires forall t :: kids(t) == ScanoutFields(c)(t)
    ensures ReadScanoutFields(kids) == if ScanoutOk(c) then Got(c) else Bad
  {
    ScanoutShown(c, kids);
    AreaShown(c, kids);
    NumIs(PortIndex, c.0);
    TextInIs(TypeTag, c.1.typ);
    TextInIs(ModeTag, c.1.mode);
    AreaRead(c.1);
  }

  lemma ScanoutListed(c: (int, Scanout))
    ensures Listed(ScanoutOrder, ScanoutFields(c))
  {
    forall t ensures AllTagged(ScanoutFields(c)(t), t) && (t !in ScanoutOrder ==> ScanoutFields(c)(t) == []) {
      assert ScanoutFields(c)(t) == ScanoutField(c, t);
    }
  }

  lemma ScanoutRead(c: (int, Scanout))
    ensures ReadScanout(WriteScanout(c)) == if ScanoutOk(c) then Got(c) else Bad
  {
    ScanoutListed(c);
    AllFound(ScanoutTag, ScanoutOrder, ScanoutFields(c));
    ScanoutFieldsRead(c, Kids(WriteScanout(c)));
  }

  // --------------------------------------------------- properties of a screen

  datatype Props = Props(position: Option<(int, int)>, resolution: Option<(int, int)>, stereo: Option<string>, rotate: Option<string>)

  const PropOrder: seq<Tag> := [XTag, YTag, WidthTag, HeightTag, StereoTag, RotateTag]

  function First(p: Option<(int, int)>): Option<int> { if p.Some? then Some(p.value.0) else None }
  function Second(p: Option<(int, int)>): Option<int> { if p.Some? then Some(p.value.1) else None }

  function PropField(p: Props, t: Tag): seq<Xml> {
    match t
    case XTag => OptNum(t, First(p.position))
    case YTag => OptNum(t, Second(p.position))
    case WidthTag => OptNum(t, First(p.resolution))
    case HeightTag => OptNum(t, Second(p.resolution))
    case StereoTag => OptText(t, p.stereo)
    case RotateTag => OptText(t, p.rotate)
    case _ => []
  }

  function PropFields(p: Props): Tag -> seq<Xml> { t => PropField(p, t) }

  function WriteProps(p: Props): seq<Xml> {
    if p == Props(None, None, None, None) then [] else [Elem(Properties, "", Assemble(PropOrder, PropFields(p)))]
  }

  /** Both parts of a pair or none. */
  function Both(a: Option<int>, b: Option<int>): Reading<Option<(int, int)>> {
    if a.Some? && b.Some? then Got(Some((a.value, b.value))) else if a.None? && b.None? then Got(None) else Bad
  }

  function ReadPropFields(kids: Tag -> seq<Xml>): (r: Reading<Props>)
    ensures r.Got? ==> PropsOk(r.value)
  {
    var w :- IntIn(kids(WidthTag));
    var h :- IntIn(kids(HeightTag));
    var x :- IntIn(kids(XTag));
    var y :- IntIn(kids(YTag));
    var resolution :- Both(w, h);
    var position :- Both(x, y);
    var stereo :- TextIn(kids(StereoTag));
    var rotate :- TextIn(kids(RotateTag));
    var p := Props(position, resolution, stereo, rotate);
    if PropsOk(p) then Got(p) else Bad
  }

  function ReadProps(es: seq<Xml>): (r: Reading<Props>)
    ensures r.Got? ==> PropsOk(r.value)
  {
    if es == [] then Got(Props(None, None, None, None)) else ReadPropFields(Kids(es[0]))
  }

  predicate PropsOk(p: Props) {
    && (p.position.Some? ==> p.position.value.0 >= 0 && p.position.value.1 >= 0)
    && (p.resolution.Some? ==> 304 <= p.resolution.value.0 <= 8192 && 200 <= p.resolution.value.1 <= 8192)
    && (p.stereo.Some? ==> p.stereo.value in ["none", "active", "passive", "SeeReal_stereo_dfp", "Sharp3D_stereo_dfp"])
    && (p.rotate.Some? ==> p.rotate.value in ["none", "portrait", "inverted_portrait", "inverted_landscape"])
  }

  lemma PropsShown(p: Props, kids: Tag -> seq<Xml>)
    requires forall t :: kids(t) == PropFields(p)(t)
    ensures kids(XTag) == OptNum(XTag, First(p.position)) && kids(YTag) == OptNum(YTag, Second(p.position))
    ensures kids(WidthTag) == OptNum(WidthTag, First(p.resolution)) && kids(HeightTag) == OptNum(HeightTag, Second(p.resolution))
    ensures kids(StereoTag) == OptText(StereoTag, p.stereo) && kids(RotateTag) == OptText(RotateTag, p.rotate)
  {
  }

  lemma PropFieldsRead(p: Props, kids: Tag -> seq<Xml>)
    requires kids(XTag) == OptNum(XTag, First(p.position)) && kids(YTag) == OptNum(YTag, Second(p.position))
    requires kids(WidthTag) == OptNum(WidthTag, First(p.resolution)) && kids(HeightTag) == OptNum(HeightTag, Second(p.resolution))
    requires kids(StereoTag) == OptText(StereoTag, p.stereo) && kids(RotateTag) == OptText(RotateTag, p.rotate)
    ensures ReadPropFields(kids) == if PropsOk(p) then Got(p) else Bad
  {
    IntInIs(WidthTag, First(p.resolution));
    IntInIs(HeightTag, Second(p.resolution));
    IntInIs(XTag, First(p.position));
    IntInIs(YTag, Second(p.position));
    TextInIs(StereoTag, p.stereo);
    TextInIs(RotateTag, p.rotate);
  }

  lemma PropKidsRead(p: Props, kids: Tag -> seq<Xml>)
    requires forall t :: kids(t) == PropFields(p)(t)
    ensures ReadPropFields(kids) == if PropsOk(p) then Got(p) else Bad
  {
    PropsShown(p, kids);
    PropFieldsRead(p, kids);
  }

  lemma PropsListed(p: Props)
    ensures Listed(PropOrder, PropFields(p))
  {
    forall t ensures AllTagged(PropFields(p)(t), t) && (t !in PropOrder ==> PropFields(p)(t) == []) {
      assert PropFields(p)(t) == PropField(p, t);
    }
  }

  lemma PropElemRead(p: Props, e: Xml)
    requires e == Elem(Properties, "", Assemble(PropOrder, PropFields(p)))
    ensures ReadPropFields(Kids(e)) == if PropsOk(p) then Got(p) else Bad
  {
    PropsListed(p);
    AllFound(Properties, PropOrder, PropFields(p));
    PropKidsRead(p, Kids(e));
  }

  lemma PropsRead(p: Props)
    ensures ReadProps(WriteProps(p)) == if PropsOk(p) then Got(p) else Bad
  {
    PropElemRead(p, Elem(Properties, "", Assemble(PropOrder, PropFields(p))));
  }
}
