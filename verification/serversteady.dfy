/** When a server tree that was read, written and read again is written as before: it
    is, exactly when every GPU's shared server is as the GPU would make it. */
module ServerSteady {
  import opened Resources
  import opened XmlTree
  import opened ServerParts
  import opened ServerTree
  import opened ServerRoundTrip

  /** The shared server of a GPU is as the GPU makes it, and so are all within it. */
  predicate GpuTied(g: GpuDesc)
    decreases g
  {
    g.serverIdx.Some? ==> MadeBy(g.server.common, g) && Tied(g.server)
  }

  predicate MadeBy(c: Common, g: GpuDesc) {
    c.shared && c.host == g.common.host && c.limit == g.common.limit && c.idx == g.serverIdx
  }

  predicate ScreenTied(s: ScreenDesc)
    decreases s
  {
    forall g <- s.gpus :: GpuTied(g)
  }

  predicate Tied(s: ServerDesc)
    decreases s
  {
    forall e <- s.screens :: ScreenTied(e.1)
  }

  // --------------------------------------------------- same writing, same fields

  lemma {:induction false} AssembleSame(order: seq<Tag>, f: Tag -> seq<Xml>, g: Tag -> seq<Xml>)
    requires forall t :: f(t) == g(t)
    ensures Assemble(order, f) == Assemble(order, g)
  {
    if order != [] { AssembleSame(order[1..], f, g); }
  }

  lemma ConsSame(x: Xml, y: Xml, es: seq<Xml>, fs: seq<Xml>)
    ensures [x] + es == [y] + fs <==> x == y && es == fs
  {
    if [x] + es == [y] + fs {
      assert ([x] + es)[0] == ([y] + fs)[0] && ([x] + es)[1..] == ([y] + fs)[1..];
    }
  }

  // ------------------------------------------------------------- the leaves

  /** A list of fields that tells the bias. */
  lemma InputSame(root: Tag, d: InputDesc)
    ensures WriteInput(root, InputBack(d)) == WriteInput(root, d) <==> d.common.bias.Some?
  {
    if WriteInput(root, InputBack(d)) == WriteInput(root, d) {
      var b, x := InputBack(d), WriteInput(root, d);
      InputListed(d);
      InputListed(b);
      AllFound(root, InputOrder, InputFields(d));
      AllFound(root, InputOrder, InputFields(b));
      InputsTell(d, b, x);
    }
  }

  lemma InputsTell(d: InputDesc, b: InputDesc, x: Xml)
    requires Looks(x, InputFields(d)) && Looks(x, InputFields(b))
    ensures d.common == b.common
  {
    InputCommonShown(d, Kids(x));
    InputCommonShown(b, Kids(x));
    CommonTold(Kids(x), d.common, b.common, Index);
  }

  lemma SliFieldsSame(s: SliDesc, t: Tag)
    requires s.common.bias.Some?
    ensures SliFields(SliBack(s, false), false)(t) == SliFields(s, false)(t)
  {
    assert SliField(SliBack(s, false), false, t) == SliField(s, false, t);
  }

  lemma SliSame(s: SliDesc)
    ensures WriteSli(SliBack(s, false), false) == WriteSli(s, false) <==> s.common.bias.Some?
  {
    var b := SliBack(s, false);
    if s.common.bias.Some? {
      forall t ensures SliFields(b, false)(t) == SliFields(s, false)(t) { SliFieldsSame(s, t); }
      AssembleSame(SliOrder, SliFields(b, false), SliFields(s, false));
    }
    if WriteSli(b, false) == WriteSli(s, false) {
      SliListed(s, false);
      SliListed(b, false);
      AllFound(SliTag, SliOrder, SliFields(s, false));
      AllFound(SliTag, SliOrder, SliFields(b, false));
      SlisTell(s, b, WriteSli(s, false));
    }
  }

  lemma SlisTell(s: SliDesc, b: SliDesc, x: Xml)
    requires Looks(x, SliFields(s, false)) && Looks(x, SliFields(b, false))
    ensures s.common == b.common
  {
    SliCommonShown(s, false, Kids(x));
    SliCommonShown(b, false, Kids(x));
    CommonTold(Kids(x), s.common, b.common, Index);
  }

  lemma CombinerSame(c: Option<SliDesc>)
    ensures WriteCombiner(CombinerBack(c)) == WriteCombiner(c) <==> (c.Some? ==> c.value.common.bias.Some?)
  {
    if c.Some? {
      SliSame(c.value);
      var x, y := WriteSli(SliBack(c.value, false), false), WriteSli(c.value, false);
      if WriteCombiner(CombinerBack(c)) == WriteCombiner(c) {
        assert WriteCombiner(CombinerBack(c))[0].kids == [x] && WriteCombiner(c)[0].kids == [y];
        assert [x][0] == [y][0];
      }
    }
  }

  lemma OptInputSame(t: Tag, d: Option<InputDesc>)
    ensures OptInput(t, OptInputBack(d)) == OptInput(t, d) <==> OptSettled(d)
  {
    if d.Some? {
      InputSame(t, d.value);
      var x, y := WriteInput(t, InputBack(d.value)), WriteInput(t, d.value);
      assert [x] == [y] <==> x == y by { if [x] == [y] { assert [x][0] == [y][0]; } }
    }
  }

  // --------------------------------------------------------------- the tree

  lemma GpusTell(g: GpuDesc, b: GpuDesc, x: Xml)
    requires Looks(x, GpuFields(g)) && Looks(x, GpuFields(b))
    ensures g.common == b.common
  {
    GpuKids(g, Kids(x));
    GpuKids(b, Kids(x));
    GpuCommonShown(g, Kids(x));
    GpuCommonShown(b, Kids(x));
    CommonTold(Kids(x), g.common, b.common, Index);
  }

  lemma GpuFieldsTell(g: GpuDesc, b: GpuDesc, x: Xml)
    requires Looks(x, GpuFields(g)) && Looks(x, GpuFields(b))
    ensures g.facts.allowNoScanOut == b.facts.allowNoScanOut
    ensures GpuField(g, ServerTag) == GpuField(b, ServerTag)
  {
    GpuKids(g, Kids(x));
    GpuKids(b, Kids(x));
    assert Kids(x)(AllowNoScanOut) == GpuField(g, AllowNoScanOut) == GpuField(b, AllowNoScanOut);
    FlagInIs(AllowNoScanOut, g.facts.allowNoScanOut);
    FlagInIs(AllowNoScanOut, b.facts.allowNoScanOut);
    assert Kids(x)(ServerTag) == GpuField(g, ServerTag) == GpuField(b, ServerTag);
  }

  lemma GpuFieldsAgree(g: GpuDesc, b: GpuDesc, t: Tag)
    requires g.common == b.common && g.facts == b.facts && b.caps == CapsBack(g.caps) && g.scanouts == b.scanouts
    requires g.serverIdx == b.serverIdx && (g.serverIdx.Some? ==> WriteServer(g.server) == WriteServer(b.server))
    ensures GpuField(b, t) == GpuField(g, t)
  {
    if t == ScanoutCaps { CapsSame(g.caps); }
  }

  lemma CapsSame(caps: Option<Dict<seq<string>>>)
    ensures WriteAll(OrElse(CapsBack(caps), []), WriteCap) == WriteAll(OrElse(caps, []), WriteCap)
  {
  }

  lemma GpusSameIf(g: GpuDesc, b: GpuDesc)
    requires g.common == b.common && g.facts == b.facts && b.caps == CapsBack(g.caps) && g.scanouts == b.scanouts
    requires g.serverIdx == b.serverIdx && (g.serverIdx.Some? ==> WriteServer(g.server) == WriteServer(b.server))
    ensures WriteGpu(b) == WriteGpu(g)
  {
    forall t ensures GpuFields(b)(t) == GpuFields(g)(t) {
      GpuFieldsAgree(g, b, t);
      assert GpuFields(b)(t) == GpuField(b, t) && GpuFields(g)(t) == GpuField(g, t);
    }
    AssembleSame(GpuOrder, GpuFields(b), GpuFields(g));
  }

  lemma GpusTellIf(g: GpuDesc, b: GpuDesc)
    requires WriteGpu(b) == WriteGpu(g) && g.serverIdx == b.serverIdx
    ensures g.common == b.common && g.facts.allowNoScanOut == b.facts.allowNoScanOut
    ensures g.serverIdx.Some? ==> WriteServer(b.server) == WriteServer(g.server)
  {
    GpuFound(g);
    GpuFound(b);
    GpusTell(g, b, WriteGpu(g));
    GpuFieldsTell(g, b, WriteGpu(g));
    if g.serverIdx.Some? { GpuServersTell(g, b); }
  }

  lemma GpuServersTell(g: GpuDesc, b: GpuDesc)
    requires GpuField(g, ServerTag) == GpuField(b, ServerTag) && g.serverIdx.Some? && b.serverIdx.Some?
    ensures WriteServer(b.server) == WriteServer(g.server)
  {
    assert GpuField(g, ServerTag)[0] == GpuField(b, ServerTag)[0];
  }

  lemma {:induction false} GpuSame(g: GpuDesc)
    ensures WriteGpu(GpuBack(g)) == WriteGpu(g) <==> GpuSettled(g) && GpuTied(g)
    decreases g
  {
    var b := GpuBack(g);
    if g.serverIdx.Some? { ServerSame(g.server, b.server.common); }
    if WriteGpu(b) == WriteGpu(g) { GpusTellIf(g, b); }
    if GpuSettled(g) && GpuTied(g) { GpusSameIf(g, b); }
  }

  lemma {:induction false} GpusSame(gs: seq<GpuDesc>)
    ensures WriteGpus(GpusBack(gs)) == WriteGpus(gs) <==> forall g <- gs :: GpuSettled(g) && GpuTied(g)
    decreases gs
  {
    if gs != [] {
      GpuSame(gs[0]);
      GpusSame(gs[1..]);
      GpusConsSame(gs);
      GpusConsTied(gs);
    }
  }

  lemma GpusCons(gs: seq<GpuDesc>)
    requires gs != []
    ensures WriteGpus(gs) == [WriteGpu(gs[0])] + WriteGpus(gs[1..])
    ensures WriteGpus(GpusBack(gs)) == [WriteGpu(GpuBack(gs[0]))] + WriteGpus(GpusBack(gs[1..]))
  {
    assert GpusBack(gs)[0] == GpuBack(gs[0]) && GpusBack(gs)[1..] == GpusBack(gs[1..]);
  }

  lemma GpusConsTied(gs: seq<GpuDesc>)
    requires gs != []
    ensures (forall g <- gs :: GpuSettled(g) && GpuTied(g))
       <==> (GpuSettled(gs[0]) && GpuTied(gs[0])) && forall g <- gs[1..] :: GpuSettled(g) && GpuTied(g)
  {
    assert gs == [gs[0]] + gs[1..];
  }

  lemma GpusConsSame(gs: seq<GpuDesc>)
    requires gs != []
    ensures WriteGpus(GpusBack(gs)) == WriteGpus(gs)
       <==> WriteGpu(GpuBack(gs[0])) == WriteGpu(gs[0]) && WriteGpus(GpusBack(gs[1..])) == WriteGpus(gs[1..])
  {
    GpusCons(gs);
    ConsSame(WriteGpu(GpuBack(gs[0])), WriteGpu(gs[0]), WriteGpus(GpusBack(gs[1..])), WriteGpus(gs[1..]));
  }

  lemma ScreensTell(e: (int, ScreenDesc), b: (int, ScreenDesc))
    requires WriteScreen(b) == WriteScreen(e)
    ensures WriteCombiner(b.1.combiner) == WriteCombiner(e.1.combiner) && WriteGpus(b.1.gpus) == WriteGpus(e.1.gpus)
  {
    ScreenFound(e);
    ScreenFound(b);
    ScreenElemsTell(e, b, WriteScreen(e));
  }

  lemma ScreenElemsTell(e: (int, ScreenDesc), b: (int, ScreenDesc), x: Xml)
    requires Looks(x, ScreenFields(e)) && Looks(x, ScreenFields(b))
    ensures WriteCombiner(b.1.combiner) == WriteCombiner(e.1.combiner) && WriteGpus(b.1.gpus) == WriteGpus(e.1.gpus)
  {
    ScreenShown(e, x);
    ScreenShown(b, x);
  }

  lemma ScreenFieldsAgree(e: (int, ScreenDesc), b: (int, ScreenDesc), t: Tag)
    requires e.0 == b.0 && e.1.props == b.1.props
    requires WriteCombiner(b.1.combiner) == WriteCombiner(e.1.combiner) && WriteGpus(b.1.gpus) == WriteGpus(e.1.gpus)
    ensures ScreenField(b, t) == ScreenField(e, t)
  {
  }

  lemma ScreensSameIf(e: (int, ScreenDesc), b: (int, ScreenDesc))
    requires e.0 == b.0 && e.1.props == b.1.props
    requires WriteCombiner(b.1.combiner) == WriteCombiner(e.1.combiner) && WriteGpus(b.1.gpus) == WriteGpus(e.1.gpus)
    ensures WriteScreen(b) == WriteScreen(e)
  {
    forall t ensures ScreenFields(b)(t) == ScreenFields(e)(t) {
      ScreenFieldsAgree(e, b, t);
      assert ScreenFields(b)(t) == ScreenField(b, t) && ScreenFields(e)(t) == ScreenField(e, t);
    }
    AssembleSame(ScreenOrder, ScreenFields(b), ScreenFields(e));
  }

  lemma {:induction false} ScreenSame(e: (int, ScreenDesc))
    ensures WriteScreen(ScreenBack(e)) == WriteScreen(e) <==> ScreenSettled(e.1) && ScreenTied(e.1)
    decreases e
  {
    GpusSame(e.1.gpus);
    CombinerSame(e.1.combiner);
    if WriteScreen(ScreenBack(e)) == WriteScreen(e) { ScreensTell(e, ScreenBack(e)); }
    if ScreenSettled(e.1) && ScreenTied(e.1) { ScreensSameIf(e, ScreenBack(e)); }
  }

  lemma {:induction false} ScreensSame(l: seq<(int, ScreenDesc)>)
    ensures WriteScreens(ScreensBack(l)) == WriteScreens(l) <==> forall e <- l :: ScreenSettled(e.1) && ScreenTied(e.1)
    decreases l
  {
    if l != [] {
      ScreenSame(l[0]);
      ScreensSame(l[1..]);
      ScreensConsSame(l);
      ScreensConsTied(l);
    }
  }

  lemma ScreensCons(l: seq<(int, ScreenDesc)>)
    requires l != []
    ensures WriteScreens(l) == [WriteScreen(l[0])] + WriteScreens(l[1..])
    ensures WriteScreens(ScreensBack(l)) == [WriteScreen(ScreenBack(l[0]))] + WriteScreens(ScreensBack(l[1..]))
  {
    assert ScreensBack(l)[0] == ScreenBack(l[0]) && ScreensBack(l)[1..] == ScreensBack(l[1..]);
  }

  lemma ScreensConsSame(l: seq<(int, ScreenDesc)>)
    requires l != []
    ensures WriteScreens(ScreensBack(l)) == WriteScreens(l)
       <==> WriteScreen(ScreenBack(l[0])) == WriteScreen(l[0]) && WriteScreens(ScreensBack(l[1..])) == WriteScreens(l[1..])
  {
    ScreensCons(l);
    ConsSame(WriteScreen(ScreenBack(l[0])), WriteScreen(l[0]), WriteScreens(ScreensBack(l[1..])), WriteScreens(l[1..]));
  }

  lemma ScreensConsTied(l: seq<(int, ScreenDesc)>)
    requires l != []
    ensures (forall e <- l :: ScreenSettled(e.1) && ScreenTied(e.1))
       <==> (ScreenSettled(l[0].1) && ScreenTied(l[0].1)) && forall e <- l[1..] :: ScreenSettled(e.1) && ScreenTied(e.1)
  {
    assert l == [l[0]] + l[1..];
  }

  lemma ServersTell(s: ServerDesc, b: ServerDesc)
    requires WriteServer(b) == WriteServer(s)
    ensures s.common == b.common && WriteScreens(b.screens) == WriteScreens(s.screens)
    ensures OptInput(KeyboardTag, b.keyboard) == OptInput(KeyboardTag, s.keyboard)
    ensures OptInput(MouseTag, b.mouse) == OptInput(MouseTag, s.mouse)
  {
    ServerFound(s);
    ServerFound(b);
    ServerElemsTell(s, b, WriteServer(s));
  }

  lemma ServerElemsTell(s: ServerDesc, b: ServerDesc, x: Xml)
    requires Looks(x, ServerFields(s)) && Looks(x, ServerFields(b))
    ensures s.common == b.common && WriteScreens(b.screens) == WriteScreens(s.screens)
    ensures OptInput(KeyboardTag, b.keyboard) == OptInput(KeyboardTag, s.keyboard)
    ensures OptInput(MouseTag, b.mouse) == OptInput(MouseTag, s.mouse)
  {
    ServerKids(s, Kids(x));
    ServerKids(b, Kids(x));
    ServerCommonShown(s, Kids(x));
    ServerCommonShown(b, Kids(x));
    CommonTold(Kids(x), s.common, b.common, ServerNumber);
    ServerScreensShown(s, Kids(x));
    ServerScreensShown(b, Kids(x));
    KeyboardShown(s, Kids(x)(KeyboardTag));
    KeyboardShown(b, Kids(x)(KeyboardTag));
    MouseShown(s, Kids(x)(MouseTag));
    MouseShown(b, Kids(x)(MouseTag));
  }

  ghost predicate AllButTree(s: ServerDesc, b: ServerDesc) {
    && s.common == b.common && s.virtual == b.virtual && s.args == b.args && s.modules == b.modules
    && s.options == b.options && s.combine == b.combine
  }

  lemma ServerFieldsAgree(s: ServerDesc, b: ServerDesc, t: Tag)
    requires AllButTree(s, b) && WriteScreens(b.screens) == WriteScreens(s.screens)
    requires OptInput(KeyboardTag, b.keyboard) == OptInput(KeyboardTag, s.keyboard)
    requires OptInput(MouseTag, b.mouse) == OptInput(MouseTag, s.mouse)
    ensures ServerField(b, t) == ServerField(s, t)
  {
  }

  lemma ServersSameIf(s: ServerDesc, b: ServerDesc)
    requires AllButTree(s, b) && WriteScreens(b.screens) == WriteScreens(s.screens)
    requires OptInput(KeyboardTag, b.keyboard) == OptInput(KeyboardTag, s.keyboard)
    requires OptInput(MouseTag, b.mouse) == OptInput(MouseTag, s.mouse)
    ensures WriteServer(b) == WriteServer(s)
  {
    forall t ensures ServerFields(b)(t) == ServerFields(s)(t) {
      ServerFieldsAgree(s, b, t);
      assert ServerFields(b)(t) == ServerField(b, t) && ServerFields(s)(t) == ServerField(s, t);
    }
    AssembleSame(ServerOrder, ServerFields(b), ServerFields(s));
  }

  /** What comes back, with other common facts c, is written as before exactly when
      these are the old ones and the rest is settled and tied. */
  lemma {:induction false} ServerSame(s: ServerDesc, c: Common)
    ensures WriteServer(ServerBack(s).(common := c)) == WriteServer(s) <==> c == s.common && InnerSettled(s) && Tied(s)
    decreases s
  {
    var b := ServerBack(s).(common := c);
    ScreensSame(s.screens);
    OptInputSame(KeyboardTag, s.keyboard);
    OptInputSame(MouseTag, s.mouse);
    if WriteServer(b) == WriteServer(s) { ServersTell(s, b); }
    if c == s.common && InnerSettled(s) && Tied(s) { ServersSameIf(s, b); }
  }

  // ------------------------------------------------------------ the results

  /** A server tree that was read can always be written and read again. The second
      writing is the first exactly when all shared servers are as their GPUs make them. */
  lemma PrintedTreeSteadyExactly(x: Xml, s: ServerDesc)
    requires ReadServer(x) == Got(s)
    ensures ReadServer(WriteServer(s)) == Got(ServerBack(s))
    ensures WriteServer(ServerBack(s)) == WriteServer(s) <==> Tied(s)
  {
    ServerFound(s);
    ServerRead(s, WriteServer(s));
    ServerSame(s, ServerBack(s).common);
  }

  lemma {:induction false} BackIsTied(s: ServerDesc)
    ensures Tied(ServerBack(s)) && Settled(ServerBack(s))
    decreases s
  {
    ScreensBackTied(s.screens);
  }

  lemma {:induction false} ScreensBackTied(l: seq<(int, ScreenDesc)>)
    ensures forall e <- ScreensBack(l) :: ScreenTied(e.1) && ScreenSettled(e.1)
    decreases l
  {
    if l != [] {
      ScreenBackTied(l[0]);
      ScreensBackTied(l[1..]);
    }
  }

  lemma {:induction false} ScreenBackTied(e: (int, ScreenDesc))
    ensures ScreenTied(ScreenBack(e).1) && ScreenSettled(ScreenBack(e).1)
    decreases e
  {
    GpusBackTied(e.1.gpus);
  }

  lemma {:induction false} GpusBackTied(gs: seq<GpuDesc>)
    ensures forall g <- GpusBack(gs) :: GpuTied(g) && GpuSettled(g)
    decreases gs
  {
    if gs != [] {
      GpuBackTied(gs[0]);
      GpusBackTied(gs[1..]);
    }
  }

  lemma {:induction false} GpuBackTied(g: GpuDesc)
    ensures GpuTied(GpuBack(g)) && GpuSettled(GpuBack(g))
    decreases g
  {
    if g.serverIdx.Some? { BackIsTied(g.server); }
  }

  /** From the second writing on nothing changes any more. */
  lemma SecondWritingStays(s: ServerDesc)
    ensures WriteServer(ServerBack(ServerBack(s))) == WriteServer(ServerBack(s))
  {
    BackIsTied(s);
    ServerSame(ServerBack(s), ServerBack(ServerBack(s)).common);
  }

  // ------------------------------------------------- a tree that is not steady

  lemma BareCommon(kids: Tag -> seq<Xml>)
    requires kids(OwnerTag) == [] && kids(MaxShareCount) == [] && kids(SharedTag) == []
    requires kids(AllocationBias) == [] && kids(Hostname) == [] && kids(Index) == []
    ensures ReadCommon(kids, Index) == Got(Common([], 1, false, Some(0), None, None))
  {
  }

  const NoFacts: GpuFacts := GpuFacts(None, None, None, None, None, None, None, None)

  lemma BareFacts(kids: Tag -> seq<Xml>)
    requires forall t | t != ServerTag :: kids(t) == []
    ensures ReadFacts(kids) == Got(FactsBack(NoFacts))
  {
    assert ShowsFacts(kids, NoFacts);
    FactsRead(kids, NoFacts);
  }

  lemma BarePorts(kids: Tag -> seq<Xml>)
    requires kids(ScanoutCaps) == [] && kids(ScanoutTag) == []
    ensures ReadPorts(kids) == Got((None, []))
  {
  }

  lemma BareGpu(kids: Tag -> seq<Xml>, given: Option<ServerDesc>)
    requires forall t | t != ServerTag :: kids(t) == []
    requires given.Some? ==> ServerOk(given.value) && Settled(given.value)
    ensures ReadGpuOf(kids, given) == Got(MakeGpu(Common([], 1, false, Some(0), None, None),
                                                  FactsBack(NoFacts), None, [], None, given))
  {
    BareCommon(kids);
    BareFacts(kids);
    BarePorts(kids);
    BareParts(kids, given);
  }

  lemma BareParts(kids: Tag -> seq<Xml>, given: Option<ServerDesc>)
    requires ReadCommon(kids, Index) == Got(Common([], 1, false, Some(0), None, None))
    requires ReadFacts(kids) == Got(FactsBack(NoFacts)) && ReadPorts(kids) == Got((None, []))
    requires kids(SharedServerIndex) == []
    requires given.Some? ==> ServerOk(given.value) && Settled(given.value)
    ensures ReadGpuOf(kids, given) == Got(MakeGpu(Common([], 1, false, Some(0), None, None),
                                                  FactsBack(NoFacts), None, [], None, given))
  {
  }

  lemma OnlyServer(x: Xml, s: Xml)
    requires x.kids == [s] && s.tag == ServerTag
    ensures Named(x.kids, ServerTag) == [s] && forall t | t != ServerTag :: Kids(x)(t) == []
  {
    NamedTagged([s], ServerTag, ServerTag);
    forall t | t != ServerTag ensures Named([s], t) == [] { NamedTagged([s], ServerTag, t); }
  }

  /** A GPU element that has a server but no index for it: the GPU takes the server's
      own number, and leaves the server unshared. The first writing says so, and the
      second, after the GPU has been given the index, does not. */
  lemma ServerWithoutIndex(x: Xml, s: Xml, n: int)
    requires x.kids == [s] && s.tag == ServerTag && ReadServer(s).Got?
    requires ReadServer(s).value.common.idx == Some(n) && !ReadServer(s).value.common.shared
    ensures ReadGpu(x).Got? && ReadGpu(x).value.serverIdx == Some(n) && !GpuTied(ReadGpu(x).value)
    ensures WriteGpu(GpuBack(ReadGpu(x).value)) != WriteGpu(ReadGpu(x).value)
  {
    OnlyServer(x, s);
    ReadGpuIs(x, ReadServer(s));
    BareGpu(Kids(x), Some(ReadServer(s).value));
    GpuSame(ReadGpu(x).value);
  }
}
