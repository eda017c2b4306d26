/** From which elements the readers take each field of a server tree, and what holds for
    fields that are not there. */
module ServerTags {
  import opened Resources
  import opened XmlTree
  import opened ServerParts
  import opened ServerTree

  // ------------------------------------------------------------- one field

  /** The first child of this name. */
  ghost predicate IsFirst(e: Xml, t: Tag, x: Xml) {
    exists i | 0 <= i < |e.kids| :: e.kids[i] == x && x.tag == t && forall j | 0 <= j < i :: e.kids[j].tag != t
  }

  ghost predicate Lacks(e: Xml, t: Tag) { forall x <- e.kids :: x.tag != t }

  /** The field is not there, or its first occurrence is this text. */
  ghost predicate Says(e: Xml, t: Tag, v: Option<string>) {
    match v case None => Lacks(e, t) case Some(s) => s != "" && IsFirst(e, t, Elem(t, s, []))
  }

  ghost predicate SaysNumber(e: Xml, t: Tag, v: Option<int>) {
    match v
    case None => Lacks(e, t)
    case Some(n) => exists x :: IsFirst(e, t, x) && x.kids == [] && ParseInt(x.text) == Got(n)
  }

  ghost predicate SaysFlag(e: Xml, t: Tag, v: Option<bool>) {
    match v
    case None => Lacks(e, t)
    case Some(b) => exists x :: IsFirst(e, t, x) && x.kids == [] && exists n :: ParseInt(x.text) == Got(n) && (b <==> n != 0)
  }

  /** The child of this name is there, and is the one meant. */
  ghost predicate Holds(e: Xml, t: Tag, present: bool) { present <==> !Lacks(e, t) }

  ghost predicate FirstAt(kids: seq<Xml>, t: Tag, x: Xml, i: nat) {
    i < |kids| && kids[i] == x && x.tag == t && forall j | 0 <= j < i :: kids[j].tag != t
  }

  lemma FirstLater(kids: seq<Xml>, t: Tag, x: Xml, i: nat)
    requires kids != [] && kids[0].tag != t && FirstAt(kids[1..], t, x, i)
    ensures FirstAt(kids, t, x, i + 1)
  {
    forall j | 0 <= j < i + 1 ensures kids[j].tag != t { if j > 0 { assert kids[j] == kids[1..][j - 1]; } }
  }

  lemma {:induction false} FirstNamed(kids: seq<Xml>, t: Tag) returns (i: nat)
    requires Named(kids, t) != []
    ensures FirstAt(kids, t, Named(kids, t)[0], i)
  {
    i := 0;
    if kids[0].tag != t {
      i := FirstNamed(kids[1..], t);
      FirstLater(kids, t, Named(kids, t)[0], i);
      i := i + 1;
    }
  }

  lemma {:induction false} NamedIs(kids: seq<Xml>, t: Tag)
    ensures Named(kids, t) == [] <==> forall x <- kids :: x.tag != t
    ensures Named(kids, t) != [] ==>
              exists i | 0 <= i < |kids| :: kids[i] == Named(kids, t)[0] && kids[i].tag == t && forall j | 0 <= j < i :: kids[j].tag != t
  {
    NoneNamed(kids, t);
    if Named(kids, t) != [] { var i := FirstNamed(kids, t); }
  }

  lemma {:induction false} NoneNamed(kids: seq<Xml>, t: Tag)
    ensures Named(kids, t) == [] <==> forall x <- kids :: x.tag != t
  {
    if kids != [] {
      NoneNamed(kids[1..], t);
      assert kids == [kids[0]] + kids[1..];
      assert kids[0] in kids;
    }
  }

  lemma TextSaid(e: Xml, t: Tag)
    ensures TextIn(Kids(e)(t)).Got? ==> Says(e, t, TextIn(Kids(e)(t)).value)
  {
    NamedIs(e.kids, t);
    var es := Named(e.kids, t);
    if es != [] { assert es[0] == Elem(es[0].tag, es[0].text, es[0].kids); }
  }

  lemma NumberSaid(e: Xml, t: Tag)
    ensures IntIn(Kids(e)(t)).Got? ==> SaysNumber(e, t, IntIn(Kids(e)(t)).value)
  {
    NamedIs(e.kids, t);
    var es := Named(e.kids, t);
    if es != [] { assert IsFirst(e, t, es[0]); }
  }

  lemma FlagSaid(e: Xml, t: Tag)
    ensures FlagIn(Kids(e)(t)).Got? ==> SaysFlag(e, t, FlagIn(Kids(e)(t)).value)
  {
    NamedIs(e.kids, t);
    var es := Named(e.kids, t);
    if es != [] && IntIn(es).Got? {
      assert IsFirst(e, t, es[0]) && ParseInt(es[0].text) == Got(IntIn(es).value.value);
    }
  }

  /** A field that has to be there is. */
  lemma NeededSaid(e: Xml, t: Tag)
    ensures NeedText(Kids(e)(t)).Got? ==> Says(e, t, Some(NeedText(Kids(e)(t)).value))
    ensures NeedInt(Kids(e)(t)).Got? ==> SaysNumber(e, t, Some(NeedInt(Kids(e)(t)).value))
  {
    TextSaid(e, t);
    NumberSaid(e, t);
  }

  // ---------------------------------------------------------- each element

  lemma {:induction false} OwnersSaid(es: seq<Xml>)
    ensures ReadOwners(es).Got? ==>
              |ReadOwners(es).value| == |es| && forall i | 0 <= i < |es| :: ParseInt(es[i].text) == Got(ReadOwners(es).value[i])
  {
    if es != [] { OwnersSaid(es[1..]); }
  }

  /** What all resources have in common. Without a share limit there is no sharing, without
      a bias it is zero, and without a word on it the resource is not in shared use. */
  lemma CommonSaid(e: Xml, idxTag: Tag)
    requires ReadCommon(Kids(e), idxTag).Got?
    ensures var c := ReadCommon(Kids(e), idxTag).value;
            && Says(e, Hostname, c.host) && SaysNumber(e, idxTag, c.idx)
            && SaysNumber(e, MaxShareCount, if Lacks(e, MaxShareCount) then None else Some(c.limit)) && (Lacks(e, MaxShareCount) ==> c.limit == 1)
            && SaysFlag(e, SharedTag, if Lacks(e, SharedTag) then None else Some(c.shared)) && (Lacks(e, SharedTag) ==> !c.shared)
            && SaysNumber(e, AllocationBias, if Lacks(e, AllocationBias) then None else c.bias) && (Lacks(e, AllocationBias) ==> c.bias == Some(0))
            && |c.owners| == |Named(e.kids, OwnerTag)|
            && forall i | 0 <= i < |c.owners| :: ParseInt(Named(e.kids, OwnerTag)[i].text) == Got(c.owners[i])
  {
    TextSaid(e, Hostname);
    NumberSaid(e, idxTag);
    NumberSaid(e, MaxShareCount);
    FlagSaid(e, SharedTag);
    NumberSaid(e, AllocationBias);
    OwnersSaid(Named(e.kids, OwnerTag));
    NamedIs(e.kids, MaxShareCount);
    NamedIs(e.kids, SharedTag);
    NamedIs(e.kids, AllocationBias);
  }

  /** Keyboards and mice. */
  lemma InputSaid(e: Xml)
    requires ReadInput(Kids(e)).Got?
    ensures var d := ReadInput(Kids(e)).value;
            && Says(e, TypeTag, d.typ) && Says(e, Driver, d.driver) && Says(e, PhysAddr, d.physAddr)
            && ReadCommon(Kids(e), Index) == Got(d.common) && PairsSaid(Named(e.kids, OptionTag), d.options)
  {
    TextSaid(e, TypeTag);
    TextSaid(e, Driver);
    TextSaid(e, PhysAddr);
    PairsAreSaid(Named(e.kids, OptionTag));
  }

  /** Each element names one pair. */
  ghost predicate PairsSaid(es: seq<Xml>, ps: seq<(string, Option<string>)>) {
    |ps| == |es| && forall i | 0 <= i < |es| :: PairSaid(es[i], ps[i])
  }

  ghost predicate PairSaid(e: Xml, p: (string, Option<string>)) { Says(e, NameTag, Some(p.0)) && Says(e, ValueTag, p.1) }

  lemma PairIsSaid(e: Xml)
    ensures ReadPair(Kids(e)).Got? ==> PairSaid(e, ReadPair(Kids(e)).value)
  {
    NeededSaid(e, NameTag);
    TextSaid(e, ValueTag);
  }

  lemma {:induction false} PairsAreSaid(es: seq<Xml>)
    ensures ReadPairs(es).Got? ==> PairsSaid(es, ReadPairs(es).value)
  {
    if es != [] && ReadPairs(es).Got? {
      PairIsSaid(es[0]);
      PairsAreSaid(es[1..]);
      FirstPairSaid(es, ReadPair(Kids(es[0])).value, ReadPairs(es[1..]).value);
    }
  }

  lemma FirstPairSaid(es: seq<Xml>, p: (string, Option<string>), ps: seq<(string, Option<string>)>)
    requires es != [] && PairSaid(es[0], p) && PairsSaid(es[1..], ps)
    ensures PairsSaid(es, [p] + ps)
  {
    forall i | 0 < i < |es| ensures PairSaid(es[i], ([p] + ps)[i]) { assert es[i] == es[1..][i - 1]; }
  }

  lemma SliSaid(e: Xml)
    requires ReadSli(Kids(e)).Got?
    ensures var s := ReadSli(Kids(e)).value;
            && Says(e, TypeTag, s.typ) && Says(e, ModeTag, s.mode) && SaysNumber(e, Gpu0Tag, s.gpu0) && SaysNumber(e, Gpu1Tag, s.gpu1)
            && ReadCommon(Kids(e), Index) == Got(s.common)
  {
    TextSaid(e, TypeTag);
    TextSaid(e, ModeTag);
    NumberSaid(e, Gpu0Tag);
    NumberSaid(e, Gpu1Tag);
  }

  /** An area, the first there is, or none. */
  ghost predicate AreaSaid(e: Xml, s: Scanout) {
    if Lacks(e, AreaTag) then s.x.None? && s.y.None? && s.width.None? && s.height.None?
    else exists a :: IsFirst(e, AreaTag, a) && AreaSays(a, s)
  }

  ghost predicate AreaSays(a: Xml, s: Scanout) {
    SaysNumber(a, XTag, s.x) && SaysNumber(a, YTag, s.y) && SaysNumber(a, WidthTag, s.width) && SaysNumber(a, HeightTag, s.height)
  }

  lemma AreaFieldsSaid(a: Xml, s: Scanout)
    requires ReadAreaFields(Kids(a)) == Got((s.x, s.y, s.width, s.height))
    ensures AreaSays(a, s)
  {
    NumberSaid(a, XTag);
    NumberSaid(a, YTag);
    NumberSaid(a, WidthTag);
    NumberSaid(a, HeightTag);
  }

  lemma ScanoutParts(kids: Tag -> seq<Xml>)
    requires ReadScanoutFields(kids).Got?
    ensures var c := ReadScanoutFields(kids).value;
            && NeedInt(kids(PortIndex)) == Got(c.0) && TextIn(kids(TypeTag)) == Got(c.1.typ) && NeedText(kids(DisplayDevice)) == Got(c.1.device)
            && TextIn(kids(ModeTag)) == Got(c.1.mode) && ReadArea(kids(AreaTag)) == Got((c.1.x, c.1.y, c.1.width, c.1.height))
  {
  }

  /** An output of a GPU. */
  lemma ScanoutSaid(e: Xml)
    requires ServerParts.ReadScanout(e).Got?
    ensures var c := ServerParts.ReadScanout(e).value;
            && SaysNumber(e, PortIndex, Some(c.0)) && Says(e, TypeTag, c.1.typ) && Says(e, DisplayDevice, Some(c.1.device))
            && Says(e, ModeTag, c.1.mode) && AreaSaid(e, c.1)
  {
    var c := ServerParts.ReadScanout(e).value;
    ScanoutParts(Kids(e));
    NeededSaid(e, PortIndex);
    NeededSaid(e, DisplayDevice);
    TextSaid(e, TypeTag);
    TextSaid(e, ModeTag);
    AreaIsSaid(e, c.1);
  }

  lemma AreaIsSaid(e: Xml, s: Scanout)
    requires ReadArea(Kids(e)(AreaTag)) == Got((s.x, s.y, s.width, s.height))
    ensures AreaSaid(e, s)
  {
    NamedIs(e.kids, AreaTag);
    var areas := Named(e.kids, AreaTag);
    if areas != [] {
      AreaFieldsSaid(areas[0], s);
      assert IsFirst(e, AreaTag, areas[0]);
    }
  }

  /** The properties of a screen: position and size have both parts or none. */
  lemma PropsSaid(e: Xml)
    requires ReadPropFields(Kids(e)).Got?
    ensures var p := ReadPropFields(Kids(e)).value;
            && SaysNumber(e, XTag, if p.position.Some? then Some(p.position.value.0) else None)
            && SaysNumber(e, YTag, if p.position.Some? then Some(p.position.value.1) else None)
            && SaysNumber(e, WidthTag, if p.resolution.Some? then Some(p.resolution.value.0) else None)
            && SaysNumber(e, HeightTag, if p.resolution.Some? then Some(p.resolution.value.1) else None)
            && Says(e, StereoTag, p.stereo) && Says(e, RotateTag, p.rotate)
  {
    NumberSaid(e, XTag);
    NumberSaid(e, YTag);
    NumberSaid(e, WidthTag);
    NumberSaid(e, HeightTag);
    TextSaid(e, StereoTag);
    TextSaid(e, RotateTag);
  }

  /** Both limits of the framebuffer, or none. */
  ghost predicate LimitsSaid(e: Xml, width: Option<int>, height: Option<int>) {
    if Lacks(e, Limits) then width.None? && height.None?
    else width.Some? && height.Some? && exists x :: IsFirst(e, Limits, x) && SaysNumber(x, MaxWidth, width) && SaysNumber(x, MaxHeight, height)
  }

  /** What is known of a GPU. Without a word on it, it can do without scanouts. */
  lemma FactsSaid(e: Xml)
    requires ReadFacts(Kids(e)).Got?
    ensures var f := ReadFacts(Kids(e)).value;
            && Says(e, ModelTag, f.model) && Says(e, BusIdTag, f.busID) && Says(e, VendorTag, f.vendor)
            && SaysFlag(e, UseScanOut, f.useScanOut) && SaysFlag(e, AllowStereo, f.allowStereo)
            && SaysFlag(e, AllowNoScanOut, if Lacks(e, AllowNoScanOut) then None else f.allowNoScanOut)
            && (Lacks(e, AllowNoScanOut) ==> f.allowNoScanOut == Some(true)) && LimitsSaid(e, f.maxWidth, f.maxHeight)
  {
    TextSaid(e, ModelTag);
    TextSaid(e, BusIdTag);
    TextSaid(e, VendorTag);
    FlagSaid(e, UseScanOut);
    FlagSaid(e, AllowStereo);
    FlagSaid(e, AllowNoScanOut);
    NamedIs(e.kids, AllowNoScanOut);
    LimitsAreSaid(e);
  }

  lemma LimitsAreSaid(e: Xml)
    ensures ReadLimits(Kids(e)(Limits)).Got? ==> LimitsSaid(e, ReadLimits(Kids(e)(Limits)).value.0, ReadLimits(Kids(e)(Limits)).value.1)
  {
    NamedIs(e.kids, Limits);
    var es := Named(e.kids, Limits);
    if es != [] {
      NeededSaid(es[0], MaxWidth);
      NeededSaid(es[0], MaxHeight);
      assert IsFirst(e, Limits, es[0]);
    }
  }

  /** The server of a GPU. Given an index it is in shared use, on the host and with the
      limit of the GPU; without one it is the one given, with the GPU's limit, or one as
      new. */
  ghost predicate ServerMade(g: GpuDesc, idx: Option<int>, given: Option<ServerDesc>) {
    && (idx.Some? ==> g.serverIdx == idx && g.server.common.shared && g.server.common.host == g.common.host && g.server.common.idx == idx)
    && (idx.None? && given.Some? ==> g.serverIdx == given.value.common.idx == g.server.common.idx)
    && (idx.None? && given.None? ==> g.serverIdx == None)
    && (given.Some? || idx.Some? ==> g.server.common.limit == g.common.limit)
    && (given.Some? ==> g.server.args == given.value.args && g.server.screens == given.value.screens && g.server.virtual == given.value.virtual)
    && (given.None? ==> AsNew(g.server))
  }

  lemma GpuServerSaid(c: Common, f: GpuFacts, caps: Option<Dict<seq<string>>>, scanouts: Dict<Scanout>, idx: Option<int>, given: Option<ServerDesc>)
    ensures var g := MakeGpu(c, f, caps, scanouts, idx, given);
            g.common == c && g.facts == f && g.caps == caps && g.scanouts == scanouts && ServerMade(g, idx, given)
  {
    NewIsAsNew();
  }

  /** A new server is normal, in shared use by nobody, and without screens and composite
      extension. */
  lemma NewIsAsNew()
    ensures AsNew(DefaultServer()) && DefaultServer().common.idx.None?
  {
  }

  /** A GPU is made of what its fields say. */
  lemma GpuSaid(e: Xml, given: Option<ServerDesc>)
    requires (given.Some? ==> ServerOk(given.value) && Settled(given.value)) && ReadGpuOf(Kids(e), given).Got?
    ensures var g := ReadGpuOf(Kids(e), given).value;
            && ReadCommon(Kids(e), Index) == Got(g.common) && ReadFacts(Kids(e)) == Got(g.facts)
            && IntIn(Kids(e)(SharedServerIndex)).Got? && ServerMade(g, IntIn(Kids(e)(SharedServerIndex)).value, given)
            && SaysNumber(e, SharedServerIndex, IntIn(Kids(e)(SharedServerIndex)).value)
  {
    var c, f, ports := ReadCommon(Kids(e), Index).value, ReadFacts(Kids(e)).value, ReadPorts(Kids(e)).value;
    NumberSaid(e, SharedServerIndex);
    GpuServerSaid(c, f, ports.0, ports.1, IntIn(Kids(e)(SharedServerIndex)).value, given);
  }

  ghost predicate AsNew(s: ServerDesc) {
    && s.common.owners == [] && s.common.shared && s.common.bias == Some(0) && !s.virtual && s.modules == [] && !s.combine
    && s.keyboard.None? && s.mouse.None? && s.screens == []
    && (forall a <- s.args :: a == ("-dpms", None) || a == ("-s", Some("off")) || a == ("-nolisten", Some("tcp"))) && |s.args| == 3
    && s.options == [("Composite", Some("Disable"))]
  }

  lemma {:induction false} TextsSaid(es: seq<Xml>)
    ensures Texts(es).Got? ==> |Texts(es).value| == |es| && forall i | 0 <= i < |es| :: es[i].text == Texts(es).value[i] && es[i].kids == []
  {
    if es != [] { TextsSaid(es[1..]); }
  }

  /** One of these elements names this pair. */
  ghost predicate PairAmong(es: seq<Xml>, p: (string, Option<string>)) {
    exists x <- es :: PairSaid(x, p)
  }

  lemma {:induction false} CollectedFrom(d: Names<Option<string>>, ps: seq<(string, Option<string>)>)
    ensures forall p <- Collect(d, ps) :: p in d || p in ps
    decreases |ps|
  {
    if ps != [] {
      assert ps == [ps[0]] + ps[1..] && (ps[0].0, ps[0].1) == ps[0];
      CollectedFrom(PutName(d, ps[0].0, ps[0].1), ps[1..]);
    }
  }

  lemma PairsFrom(es: seq<Xml>)
    requires ReadPairs(es).Got?
    ensures forall p <- Collect([], ReadPairs(es).value) :: PairAmong(es, p)
  {
    var ps := ReadPairs(es).value;
    PairsAreSaid(es);
    CollectedFrom([], ps);
    forall p <- Collect([], ps)
      ensures PairAmong(es, p)
    {
      var i :| 0 <= i < |ps| && ps[i] == p;
      assert es[i] in es;
    }
  }

  lemma HeadParts(kids: Tag -> seq<Xml>, r: Reading<ServerDesc>)
    requires r == ReadHead(kids) && r.Got?
    ensures ReadCommon(kids, ServerNumber) == Got(r.value.common)
    ensures ReadType(kids(ServerType)) == Got(r.value.virtual)
    ensures ReadCombine(kids(CombineFramebuffers)) == Got(r.value.combine)
    ensures ReadLists(kids) == Got((r.value.args, r.value.modules, r.value.options))
    ensures ReadInputs(kids(KeyboardTag)) == Got(r.value.keyboard) && ReadInputs(kids(MouseTag)) == Got(r.value.mouse)
  {
    var c, virtual, l := ReadCommon(kids, ServerNumber), ReadType(kids(ServerType)), ReadLists(kids);
    var keyboard, mouse, combine := ReadInputs(kids(KeyboardTag)), ReadInputs(kids(MouseTag)), ReadCombine(kids(CombineFramebuffers));
    assert c.Got? && virtual.Got? && l.Got? && keyboard.Got? && mouse.Got? && combine.Got?;
  }

  lemma ListParts(kids: Tag -> seq<Xml>)
    requires ReadLists(kids).Got?
    ensures var l := ReadLists(kids).value;
            && ReadPairs(kids(CmdArg)).Got? && l.0 == Collect([], ReadPairs(kids(CmdArg)).value)
            && Texts(kids(ModuleTag)) == Got(l.1)
            && ReadPairs(kids(ExtensionOption)).Got? && l.2 == Collect([], ReadPairs(kids(ExtensionOption)).value)
  {
  }

  lemma CombineSaid(e: Xml)
    requires ReadCombine(Kids(e)(CombineFramebuffers)).Got?
    ensures ReadCombine(Kids(e)(CombineFramebuffers)).value <==> !Lacks(e, CombineFramebuffers)
  {
    NamedIs(e.kids, CombineFramebuffers);
  }

  /** A server but for its screens: its number, whether it is a virtual one, its arguments,
      modules and options, whether it has a keyboard and a mouse, and whether its screens
      are combined. */
  lemma HeadSaid(e: Xml)
    requires ReadHead(Kids(e)).Got?
    ensures var s := ReadHead(Kids(e)).value;
            && ReadCommon(Kids(e), ServerNumber) == Got(s.common)
            && (s.virtual <==> IsFirst(e, ServerType, Elem(ServerType, "virtual", [])))
            && (s.combine <==> !Lacks(e, CombineFramebuffers))
            && (forall a <- s.args :: PairAmong(Named(e.kids, CmdArg), a)) && (forall o <- s.options :: PairAmong(Named(e.kids, ExtensionOption), o))
            && |s.modules| == |Named(e.kids, ModuleTag)| && (forall i | 0 <= i < |s.modules| :: Named(e.kids, ModuleTag)[i].text == s.modules[i])
            && ReadInputs(Kids(e)(KeyboardTag)) == Got(s.keyboard) && ReadInputs(Kids(e)(MouseTag)) == Got(s.mouse)
  {
    HeadParts(Kids(e), ReadHead(Kids(e)));
    ListParts(Kids(e));
    TypeSaid(e);
    CombineSaid(e);
    PairsFrom(Named(e.kids, CmdArg));
    PairsFrom(Named(e.kids, ExtensionOption));
    TextsSaid(Named(e.kids, ModuleTag));
  }

  lemma TypeSaid(e: Xml)
    requires ReadType(Kids(e)(ServerType)).Got?
    ensures ReadType(Kids(e)(ServerType)).value <==> IsFirst(e, ServerType, Elem(ServerType, "virtual", []))
  {
    TextSaid(e, ServerType);
    NamedIs(e.kids, ServerType);
    var es := Named(e.kids, ServerType);
    if i :| 0 <= i < |e.kids| && e.kids[i] == Elem(ServerType, "virtual", []) && forall j | 0 <= j < i :: e.kids[j].tag != ServerType {
      assert e.kids[i] in e.kids;
      var k :| 0 <= k < |e.kids| && e.kids[k] == es[0] && e.kids[k].tag == ServerType && forall j | 0 <= j < k :: e.kids[j].tag != ServerType;
      assert k == i;
    }
  }

  /** A screen: its number, its properties, of which it need not have any, and its bridge. */
  lemma ScreenSaid(e: Xml)
    requires ReadScreen(e).Got?
    ensures var s := ReadScreen(e).value;
            && SaysNumber(e, Index, Some(s.0))
            && (if Lacks(e, Properties) then s.1.props == Props(None, None, None, None)
                else exists x :: IsFirst(e, Properties, x) && ReadPropFields(Kids(x)) == Got(s.1.props))
            && (s.1.combiner.Some? <==> !Lacks(e, GpuCombiner))
  {
    ScreenParts(e, ReadScreen(e));
    CombinerSaid(e);
    NeededSaid(e, Index);
    PropertiesSaid(e, ReadScreen(e).value.1.props);
  }

  lemma CombinerSaid(e: Xml)
    requires ReadCombiner(Kids(e)(GpuCombiner)).Got?
    ensures ReadCombiner(Kids(e)(GpuCombiner)).value.Some? <==> !Lacks(e, GpuCombiner)
  {
    NamedIs(e.kids, GpuCombiner);
  }

  lemma ScreenParts(e: Xml, r: Reading<(int, ScreenDesc)>)
    requires r == ReadScreen(e) && r.Got?
    ensures NeedInt(Kids(e)(Index)) == Got(r.value.0)
    ensures ReadProps(Kids(e)(Properties)) == Got(r.value.1.props) && ReadCombiner(Kids(e)(GpuCombiner)) == Got(r.value.1.combiner)
  {
    var n := NeedInt(Kids(e)(Index));
    assert n.Got?;
    var props := ReadProps(Kids(e)(Properties));
    assert props.Got?;
    var combiner := ReadCombiner(Kids(e)(GpuCombiner));
    assert combiner.Got?;
    var gpus := ReadGpus(e.kids);
    assert gpus.Got?;
  }

  lemma PropertiesSaid(e: Xml, p: Props)
    requires ReadProps(Kids(e)(Properties)) == Got(p)
    ensures if Lacks(e, Properties) then p == Props(None, None, None, None)
            else exists x :: IsFirst(e, Properties, x) && ReadPropFields(Kids(x)) == Got(p)
  {
    NamedIs(e.kids, Properties);
    if Named(e.kids, Properties) != [] { assert IsFirst(e, Properties, Named(e.kids, Properties)[0]); }
  }

  // ------------------------------------------------------------ repetitions

  /** Of numbered entries with one number the last is kept. */
  lemma {:induction false} LastIsKept<V>(d: Dict<V>, l: seq<(int, V)>, k: int, v: V)
    ensures (k, v) in PutAll(d, l) <==>
              (exists i | 0 <= i < |l| :: l[i] == (k, v) && forall j | i < j < |l| :: l[j].0 != k)
              || ((k, v) in d && forall e <- l :: e.0 != k)
    decreases |l|
  {
    if l != [] {
      var d1, rest := Put(d, l[0].0, l[0].1), l[1..];
      assert (l[0].0, l[0].1) == l[0] && l == [l[0]] + rest;
      LastIsKept(d1, rest, k, v);
      PutMeans(d, l[0].0, l[0].1, k, v);
      LaterOrFirst(l, k, v);
    }
  }

  lemma LaterOrFirst<V>(l: seq<(int, V)>, k: int, v: V)
    requires l != []
    ensures (exists i | 0 <= i < |l| :: l[i] == (k, v) && forall j | i < j < |l| :: l[j].0 != k)
       <==> (exists i | 0 <= i < |l[1..]| :: l[1..][i] == (k, v) && forall j | i < j < |l[1..]| :: l[1..][j].0 != k)
            || (l[0] == (k, v) && forall e <- l[1..] :: e.0 != k)
  {
    var rest := l[1..];
    assert forall i | 0 <= i < |rest| :: rest[i] == l[i + 1];
    if i :| 0 <= i < |l| && l[i] == (k, v) && forall j | i < j < |l| :: l[j].0 != k {
      if i > 0 {
        var before := i - 1;
        assert rest[before] == (k, v);
      }
    }
    if i :| 0 <= i < |rest| && rest[i] == (k, v) && forall j | i < j < |rest| :: rest[j].0 != k {
      var next := i + 1;
      assert l[next] == (k, v);
      forall j | next < j < |l| ensures l[j].0 != k { assert l[j] == rest[j - 1]; }
    }
    if l[0] == (k, v) && forall e <- rest :: e.0 != k {
      forall j | 0 < j < |l| ensures l[j].0 != k { assert l[j] == rest[j - 1] && rest[j - 1] in rest; }
    }
  }

  lemma {:induction false} PutMeans<V>(d: Dict<V>, k: int, v: V, k': int, v': V)
    ensures (k', v') in Put(d, k, v) <==> if k' == k then v' == v else (k', v') in d
  {
    if d != [] {
      assert d == [d[0]] + d[1..];
      if k > d[0].0 { PutMeans(d[1..], k, v, k', v'); }
      else if k == d[0].0 { assert forall e <- d[1..] :: d[0].0 < e.0; }
      else { assert forall e <- d :: k < e.0; }
    }
  }
}
