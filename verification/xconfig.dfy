/** The validator of X server configurations. It walks over the screens of a
    configuration, keeps a table of the ports in use on each GPU beside the lists of
    scanouts of each screen, and accepts or refuses the whole. Numbers are 32 bits
    wide and sums wrap around, as in the original. */
module XConfig {
  import opened Resources

  const LIMIT: nat := 0x1_0000_0000

  type u32 = n: nat | n < LIMIT witness 0

  /** The value that stands for no value. */
  const UNSPECIFIED: u32 := 0xffff_ffff

  function Add(a: u32, b: u32): u32 { (a + b) % LIMIT }

  // -------------------------------------------------------------- templates

  datatype Mode = Mode(alias: string, width: u32, height: u32, kind: string, value: string)

  datatype Display = Display(name: string, input: string, modes: seq<Mode>, defaultMode: string)

  // ------------------------------------------------- the configuration read

  datatype AreaNode = AreaNode(x: u32, y: u32, width: Option<u32>, height: Option<u32>)

  datatype ScanoutNode = ScanoutNode(port: u32, device: string, kind: Option<string>, mode: Option<string>, area: Option<AreaNode>)

  datatype GpuNode = GpuNode(index: u32, scanouts: seq<ScanoutNode>)

  datatype Stereo = NoStereo | Active | Passive | SeeReal | Sharp3D

  datatype SliMode = Auto | SFR | AFR | AA | Mosaic

  /** A combiner joins GPUs; one without SLI is malformed. */
  datatype Combiner = NoCombiner | Malformed | Sli(index: u32, mode: SliMode)

  datatype FbNode = FbNode(index: u32, width: u32, height: u32, stereo: Stereo, rotated: bool, gpus: seq<GpuNode>, combiner: Combiner)

  datatype OptVal = OptVal(name: string, value: string)

  // ----------------------------------------------------- what is made of it

  datatype Scanout = Scanout(x: u32, y: u32, width: u32, height: u32, port: u32, kind: string, mode: string, device: string)

  datatype FbGpu = FbGpu(index: u32, scanouts: seq<Scanout>)

  datatype Bridge = Bridge(quadroPlex: bool, mode: SliMode, gpu0: u32, gpu1: u32)

  datatype Framebuffer = Framebuffer(index: u32, width: u32, height: u32, stereo: Stereo, rotated: bool, gpus: seq<FbGpu>, bridge: Option<Bridge>)

  /** The ports of a GPU: how often each is used, and by which scanout. */
  datatype GpuInfo = GpuInfo(allowScanOut: bool, maxWidth: u32, maxHeight: u32, usageCount: nat, portUsage: seq<nat>, portScanout: seq<Scanout>)

  // ----------------------------------------------------------------- lookup

  function FindDisplay(ds: seq<Display>, name: string): Option<Display> {
    if ds == [] then None else if ds[0].name == name then Some(ds[0]) else FindDisplay(ds[1..], name)
  }

  function FindMode(ms: seq<Mode>, alias: string): Option<Mode> {
    if ms == [] then None else if ms[0].alias == alias then Some(ms[0]) else FindMode(ms[1..], alias)
  }

  /** The mode of a device by its name. An unknown device has no modes. */
  function ModeOf(ds: seq<Display>, device: string, alias: string): Option<Mode> {
    match FindDisplay(ds, device)
    case None => None
    case Some(d) => FindMode(d.modes, alias)
  }

  method LookUpDisplay(ds: seq<Display>, name: string) returns (d: Option<Display>)
    ensures d == FindDisplay(ds, name)
  {
    for i := 0 to |ds|
      invariant FindDisplay(ds, name) == FindDisplay(ds[i..], name)
    {
      assert ds[i..][1..] == ds[i + 1..];
      if ds[i].name == name { return Some(ds[i]); }
    }
    d := None;
  }

  method LookUpMode(ms: seq<Mode>, alias: string) returns (m: Option<Mode>)
    ensures m == FindMode(ms, alias)
  {
    for i := 0 to |ms|
      invariant FindMode(ms, alias) == FindMode(ms[i..], alias)
    {
      assert ms[i..][1..] == ms[i + 1..];
      if ms[i].alias == alias { return Some(ms[i]); }
    }
    m := None;
  }

  // ---------------------------------------------------------- one scanout

  function ModeName(ds: seq<Display>, s: ScanoutNode): string {
    if s.mode.Some? then s.mode.value
    else match FindDisplay(ds, s.device) case Some(d) => d.defaultMode case None => ""
  }

  function Kind(ds: seq<Display>, s: ScanoutNode): string {
    if s.kind.Some? then s.kind.value
    else match FindDisplay(ds, s.device) case Some(d) => d.input case None => ""
  }

  function AreaWidth(s: ScanoutNode, m: Mode): u32 {
    if s.area.Some? && s.area.value.width.Some? then s.area.value.width.value else m.width
  }

  function AreaHeight(s: ScanoutNode, m: Mode): u32 {
    if s.area.Some? && s.area.value.height.Some? then s.area.value.height.value else m.height
  }

  /** The scanout a node asks for; it may show more than its mode, to pan over. */
  function ScanoutOf(ds: seq<Display>, s: ScanoutNode, m: Mode): Scanout {
    Scanout(if s.area.Some? then s.area.value.x else 0, if s.area.Some? then s.area.value.y else 0,
            AreaWidth(s, m), AreaHeight(s, m), s.port, Kind(ds, s), ModeName(ds, s), s.device)
  }

  /** A scanout names a mode that is known, fits the framebuffer if its size is given,
      and fits its own area. */
  predicate ScanoutOk(ds: seq<Display>, width: u32, height: u32, s: ScanoutNode) {
    match ModeOf(ds, s.device, ModeName(ds, s))
    case None => false
    case Some(m) =>
      && (width != UNSPECIFIED ==> m.width <= width) && (height != UNSPECIFIED ==> m.height <= height)
      && m.width <= AreaWidth(s, m) && m.height <= AreaHeight(s, m)
  }

  function Resolved(ds: seq<Display>, s: ScanoutNode): Scanout {
    match ModeOf(ds, s.device, ModeName(ds, s))
    case Some(m) => ScanoutOf(ds, s, m)
    case None => ScanoutOf(ds, s, Mode("", 0, 0, "", ""))
  }

  method ReadScanout(ds: seq<Display>, width: u32, height: u32, s: ScanoutNode) returns (ok: bool, scanout: Scanout)
    ensures ok == ScanoutOk(ds, width, height, s)
    ensures ok ==> scanout == Resolved(ds, s)
  {
    scanout := Scanout(0, 0, 0, 0, s.port, "", "", s.device);
    var display := LookUpDisplay(ds, s.device);
    var kind := if s.kind.Some? then s.kind.value else if display.Some? then display.value.input else "";
    var mode := if s.mode.Some? then s.mode.value else if display.Some? then display.value.defaultMode else "";
    var m := LookUpMode(if display.Some? then display.value.modes else [], mode);
    if m.None? { return false, scanout; }
    if width != UNSPECIFIED && m.value.width > width { return false, scanout; }
    if height != UNSPECIFIED && m.value.height > height { return false, scanout; }
    var x, y, w, h := 0, 0, m.value.width, m.value.height;
    if s.area.Some? {
      x, y := s.area.value.x, s.area.value.y;
      if s.area.value.width.Some? { w := s.area.value.width.value; }
      if s.area.value.height.Some? { h := s.area.value.height.value; }
      if w < m.value.width { return false, scanout; }
      if h < m.value.height { return false, scanout; }
    }
    ok, scanout := true, Scanout(x, y, w, h, s.port, kind, mode, s.device);
  }

  // ---------------------------------------------------------- the port table

  /** A scanout and the GPU it is on. */
  datatype Use = Use(gpu: u32, scanout: Scanout)

  predicate SamePort(a: Use, b: Use) { a.gpu == b.gpu && a.scanout.port == b.scanout.port }

  /** No port is used twice. */
  ghost predicate PortsDiffer(uses: seq<Use>) { forall i, j | 0 <= i < j < |uses| :: !SamePort(uses[i], uses[j]) }

  ghost predicate HasPort(gpus: seq<GpuInfo>, u: Use) {
    u.gpu < |gpus| && u.scanout.port < |gpus[u.gpu].portUsage|
  }

  ghost predicate Tables(gpus: seq<GpuInfo>) {
    forall g | 0 <= g < |gpus| :: |gpus[g].portScanout| == |gpus[g].portUsage|
  }

  /** The port tables agree with the scanouts so far: a port is marked, once, exactly
      if one of them uses it, and then holds that scanout. */
  ghost predicate Agrees(gpus: seq<GpuInfo>, uses: seq<Use>) {
    && Tables(gpus) && PortsDiffer(uses)
    && (forall u <- uses :: HasPort(gpus, u) && gpus[u.gpu].portUsage[u.scanout.port] == 1 && gpus[u.gpu].portScanout[u.scanout.port] == u.scanout)
    && (forall g, p | 0 <= g < |gpus| && 0 <= p < |gpus[g].portUsage| && gpus[g].portUsage[p] != 0 ::
          exists u <- uses :: u.gpu == g && u.scanout.port == p)
  }

  ghost predicate SameGpus(gpus: seq<GpuInfo>, other: seq<GpuInfo>) {
    |gpus| == |other| && forall g | 0 <= g < |gpus| ::
      gpus[g].allowScanOut == other[g].allowScanOut && gpus[g].maxWidth == other[g].maxWidth && gpus[g].maxHeight == other[g].maxHeight
      && |gpus[g].portUsage| == |other[g].portUsage|
  }

  /** Mark a port as used by a scanout. */
  function Mark(gpus: seq<GpuInfo>, g: nat, s: Scanout): seq<GpuInfo>
    requires g < |gpus| && s.port < |gpus[g].portUsage| == |gpus[g].portScanout|
  {
    gpus[g := gpus[g].(portUsage := gpus[g].portUsage[s.port := 1], portScanout := gpus[g].portScanout[s.port := s])]
  }

  lemma MarkAgrees(gpus: seq<GpuInfo>, uses: seq<Use>, u: Use)
    requires Agrees(gpus, uses) && HasPort(gpus, u) && gpus[u.gpu].portUsage[u.scanout.port] == 0
    ensures Agrees(Mark(gpus, u.gpu, u.scanout), uses + [u])
    ensures SameGpus(gpus, Mark(gpus, u.gpu, u.scanout))
  {
    var gpus', uses' := Mark(gpus, u.gpu, u.scanout), uses + [u];
    assert forall v :: v in uses' <==> v in uses || v == u;
    forall i, j | 0 <= i < j < |uses'|
      ensures !SamePort(uses'[i], uses'[j])
    {
      if j == |uses| { assert uses[i] in uses; }
    }
    forall g, p | 0 <= g < |gpus'| && 0 <= p < |gpus'[g].portUsage| && gpus'[g].portUsage[p] != 0
      ensures exists v <- uses' :: v.gpu == g && v.scanout.port == p
    {
      if g == u.gpu && p == u.scanout.port {
        assert u in uses';
      } else {
        assert gpus[g].portUsage[p] != 0;
        var v :| v in uses && v.gpu == g && v.scanout.port == p;
        assert v in uses';
      }
    }
  }

  /** A port is free exactly if using it repeats no use. */
  lemma FreePortIsNew(gpus: seq<GpuInfo>, uses: seq<Use>, u: Use)
    requires Agrees(gpus, uses) && HasPort(gpus, u)
    ensures gpus[u.gpu].portUsage[u.scanout.port] == 0 <==> PortsDiffer(uses + [u])
  {
    var uses' := uses + [u];
    if gpus[u.gpu].portUsage[u.scanout.port] == 0 {
      MarkAgrees(gpus, uses, u);
    } else {
      var v :| v in uses && v.gpu == u.gpu && v.scanout.port == u.scanout.port;
      var i :| 0 <= i < |uses| && uses[i] == v;
      assert SamePort(uses'[i], uses'[|uses|]);
    }
  }

  /** A port is marked exactly if one of the uses is of it, only one is, and the table
      holds the scanout of that one. */
  ghost predicate MarkedOnce(gpus: seq<GpuInfo>, uses: seq<Use>) {
    forall g, p | 0 <= g < |gpus| && 0 <= p < |gpus[g].portUsage| ::
      && |gpus[g].portScanout| == |gpus[g].portUsage|
      && (gpus[g].portUsage[p] != 0 <==> exists i | 0 <= i < |uses| :: IsOf(uses[i], g, p))
      && (forall i, j | 0 <= i < |uses| && 0 <= j < |uses| && IsOf(uses[i], g, p) && IsOf(uses[j], g, p) :: i == j)
      && (forall i | 0 <= i < |uses| && IsOf(uses[i], g, p) :: gpus[g].portScanout[p] == uses[i].scanout)
  }

  predicate IsOf(u: Use, g: int, p: int) { u.gpu == g && u.scanout.port == p }

  lemma AgreementMarks(gpus: seq<GpuInfo>, uses: seq<Use>)
    requires Agrees(gpus, uses)
    ensures MarkedOnce(gpus, uses)
  {
    forall g, p | 0 <= g < |gpus| && 0 <= p < |gpus[g].portUsage|
      ensures gpus[g].portUsage[p] != 0 <==> exists i | 0 <= i < |uses| :: IsOf(uses[i], g, p)
      ensures forall i, j | 0 <= i < |uses| && 0 <= j < |uses| && IsOf(uses[i], g, p) && IsOf(uses[j], g, p) :: i == j
      ensures forall i | 0 <= i < |uses| && IsOf(uses[i], g, p) :: gpus[g].portScanout[p] == uses[i].scanout
    {
      PortIsMarkedOnce(gpus, uses, g, p);
    }
  }

  lemma PortIsMarkedOnce(gpus: seq<GpuInfo>, uses: seq<Use>, g: nat, p: nat)
    requires Agrees(gpus, uses) && g < |gpus| && p < |gpus[g].portUsage|
    ensures gpus[g].portUsage[p] != 0 <==> exists i | 0 <= i < |uses| :: IsOf(uses[i], g, p)
    ensures forall i, j | 0 <= i < |uses| && 0 <= j < |uses| && IsOf(uses[i], g, p) && IsOf(uses[j], g, p) :: i == j
    ensures forall i | 0 <= i < |uses| && IsOf(uses[i], g, p) :: gpus[g].portScanout[p] == uses[i].scanout
  {
    if gpus[g].portUsage[p] != 0 {
      var u :| u in uses && u.gpu == g && u.scanout.port == p;
      var i :| 0 <= i < |uses| && uses[i] == u;
      assert IsOf(uses[i], g, p);
    }
    forall i, j | 0 <= i < |uses| && 0 <= j < |uses| && IsOf(uses[i], g, p) && IsOf(uses[j], g, p)
      ensures i == j
    {
      assert SamePort(uses[i], uses[j]) && SamePort(uses[j], uses[i]);
    }
    forall i | 0 <= i < |uses| && IsOf(uses[i], g, p)
      ensures gpus[g].portUsage[p] != 0 && gpus[g].portScanout[p] == uses[i].scanout
    {
      assert uses[i] in uses;
    }
  }

  /** What the device sections describe: the scanouts of a GPU's used ports. */
  function DeviceOutputs(g: GpuInfo, n: nat): seq<Scanout>
    requires n <= |g.portUsage| == |g.portScanout|
  {
    if n == 0 then [] else DeviceOutputs(g, n - 1) + if g.portUsage[n - 1] == 0 then [] else [g.portScanout[n - 1]]
  }

  lemma {:induction false} DeviceOutputsAre(g: GpuInfo, n: nat)
    requires n <= |g.portUsage| == |g.portScanout|
    ensures forall s :: s in DeviceOutputs(g, n) <==> exists p | 0 <= p < n :: g.portUsage[p] != 0 && g.portScanout[p] == s
  {
    if n > 0 {
      DeviceOutputsAre(g, n - 1);
      forall s
        ensures s in DeviceOutputs(g, n) <==> exists p | 0 <= p < n :: g.portUsage[p] != 0 && g.portScanout[p] == s
      {
        if p :| 0 <= p < n && g.portUsage[p] != 0 && g.portScanout[p] == s { assert p < n - 1 || p == n - 1; }
      }
    }
  }

  /** Device sections and screen sections describe the same outputs: a GPU's device
      section has exactly the scanouts the screens put on that GPU. */
  lemma SectionsAgree(gpus: seq<GpuInfo>, uses: seq<Use>, g: u32, s: Scanout)
    requires Agrees(gpus, uses) && g < |gpus|
    ensures s in DeviceOutputs(gpus[g], |gpus[g].portUsage|) <==> Use(g, s) in uses
  {
    DeviceOutputsAre(gpus[g], |gpus[g].portUsage|);
    if p :| 0 <= p < |gpus[g].portUsage| && gpus[g].portUsage[p] != 0 && gpus[g].portScanout[p] == s {
      var u :| u in uses && u.gpu == g && u.scanout.port == p;
      assert gpus[u.gpu].portScanout[u.scanout.port] == u.scanout;
      assert u == Use(g, s);
    }
    if Use(g, s) in uses { assert HasPort(gpus, Use(g, s)); }
  }
}
