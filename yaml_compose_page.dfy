/** Declarative pages as the yaml decoder holds them (pkg/envoy/yaml/compose_page.go):
    page objects with their child pages and blocks, how a page is recognised
    by an identifier, how a child is attached to its parent, and how the
    encoder configuration is handed to every page and block. */
module YamlComposePage {
  import opened Strconv
  import opened Resource
  import opened ComposeTypes

  /** The yaml encoder's per-resource configuration; opaque here. */
  datatype EncoderConfig = EncoderConfig(onExisting: MergeAlg, skipIf: string)

  class ComposePageBlock {
    var res: PageBlock
    var refMod: seq<string>
    var refChart: seq<string>
    var cfg: Option<EncoderConfig>

    constructor (res: PageBlock, refMod: seq<string>, refChart: seq<string>)
      ensures this.res == res && this.refMod == refMod && this.refChart == refChart && cfg == None
    {
      this.res := res;
      this.refMod := refMod;
      this.refChart := refChart;
      cfg := None;
    }
  }

  class ComposePage {
    var res: Page
    var refNamespace: string
    var refModule: string
    var refParent: string
    var encoderConfig: Option<EncoderConfig>
    var children: seq<ComposePage>
    var blocks: seq<ComposePageBlock>

    constructor (res: Page, refNamespace: string, refModule: string, refParent: string, blocks: seq<ComposePageBlock>)
      ensures this.res == res && this.refNamespace == refNamespace && this.refModule == refModule
      ensures this.refParent == refParent && this.blocks == blocks
      ensures encoderConfig == None && children == []
    {
      this.res := res;
      this.refNamespace := refNamespace;
      this.refModule := refModule;
      this.refParent := refParent;
      this.blocks := blocks;
      encoderConfig := None;
      children := [];
    }

    /** The page answers to its decimal ID (only when it has one), its handle
        and its title. */
    predicate Matches(i: string)
      reads this
      ensures i == res.handle || i == res.title || (res.id > 0 && i == FormatUint(res.id)) ==> Matches(i)
      ensures Matches(i) && i != res.handle && i != res.title ==> res.id > 0 && i == FormatUint(res.id) && ParseUint(i) == res.id
    {
      if res.id > 0 && FormatUint(res.id) == i then (ParseFormatUint(res.id); true)
      else if res.handle == i then true
      else if res.title == i then true
      else false
    }
  }

  /** Page k of c is the first page of c that answers to ii. */
  ghost predicate IsFirstMatch(c: seq<ComposePage>, ii: string, k: int)
    reads c
  {
    0 <= k < |c| && c[k].Matches(ii) && forall j :: 0 <= j < k ==> !c[j].Matches(ii)
  }

  /** The fields of the pages of c other than their children are as they were. */
  twostate predicate OnlyChildrenChanged(c: seq<ComposePage>)
    reads c
  {
    forall s :: s in c ==>
      s.res == old(s.res) && s.refNamespace == old(s.refNamespace) && s.refModule == old(s.refModule)
      && s.refParent == old(s.refParent) && s.encoderConfig == old(s.encoderConfig) && s.blocks == old(s.blocks)
  }

  /** composePageSet.AddComposePage: append p to the children of the first
      page of c that answers to ii; fail, changing nothing, when none does. */
  method AddComposePage(c: seq<ComposePage>, ii: string, p: ComposePage) returns (err: Option<Error>)
    modifies c
    ensures OnlyChildrenChanged(c)
    ensures err.None? <==> exists k :: 0 <= k < |c| && c[k].Matches(ii)
    ensures err.Some? ==> err.value == PageDoesNotExist && forall s :: s in c ==> s.children == old(s.children)
    ensures err.None? ==>
      exists k :: (IsFirstMatch(c, ii, k)
        && c[k].children == old(c[k].children) + [p]
        && forall s :: s in c && s != c[k] ==> s.children == old(s.children))
  {
    var found := -1;
    var i := 0;
    while i < |c|
      invariant 0 <= i <= |c|
      invariant forall j :: 0 <= j < i ==> !c[j].Matches(ii)
    {
      if c[i].Matches(ii) {
        found := i;
        break;
      }
      i := i + 1;
    }
    if found < 0 {
      return Some(PageDoesNotExist);
    }
    var cpg := c[found];
    cpg.children := cpg.children + [p];
    assert IsFirstMatch(c, ii, found);
    return None;
  }

  /** composePageSet.ConfigureEncoder: every page gets cfg; nothing else changes. */
  method ConfigurePagesEncoder(nn: seq<ComposePage>, cfg: Option<EncoderConfig>)
    modifies nn
    ensures forall n :: n in nn ==> n.encoderConfig == cfg
    ensures forall n :: n in nn ==>
      n.res == old(n.res) && n.refNamespace == old(n.refNamespace) && n.refModule == old(n.refModule)
      && n.refParent == old(n.refParent) && n.children == old(n.children) && n.blocks == old(n.blocks)
  {
    var i := 0;
    while i < |nn|
      invariant 0 <= i <= |nn|
      invariant forall j :: 0 <= j < i ==> nn[j].encoderConfig == cfg
      invariant forall n :: n in nn ==>
        n.res == old(n.res) && n.refNamespace == old(n.refNamespace) && n.refModule == old(n.refModule)
        && n.refParent == old(n.refParent) && n.children == old(n.children) && n.blocks == old(n.blocks)
    {
      nn[i].encoderConfig := cfg;
      i := i + 1;
    }
  }

  /** composePageBlockSet.ConfigureEncoder: every block gets cfg; nothing else changes. */
  method ConfigureBlocksEncoder(bb: seq<ComposePageBlock>, cfg: Option<EncoderConfig>)
    modifies bb
    ensures forall b :: b in bb ==> b.cfg == cfg
    ensures forall b :: b in bb ==>
      b.res == old(b.res) && b.refMod == old(b.refMod) && b.refChart == old(b.refChart)
  {
    var i := 0;
    while i < |bb|
      invariant 0 <= i <= |bb|
      invariant forall j :: 0 <= j < i ==> bb[j].cfg == cfg
      invariant forall b :: b in bb ==>
        b.res == old(b.res) && b.refMod == old(b.refMod) && b.refChart == old(b.refChart)
    {
      bb[i].cfg := cfg;
      i := i + 1;
    }
  }

  /** A page answers to its handle, its title and, when it has one, its
      decimal ID; anything else it answers to is exactly the decimal form of its
      positive ID, which parses back to it. */
  lemma {:induction false} MatchesOwnIdentifiers(pg: ComposePage, i: string)
    ensures pg.Matches(pg.res.handle) && pg.Matches(pg.res.title)
    ensures pg.res.id > 0 ==> pg.Matches(FormatUint(pg.res.id))
    ensures pg.Matches(i) && i != pg.res.handle && i != pg.res.title ==>
      pg.res.id > 0 && i == FormatUint(pg.res.id) && ParseUint(i) == pg.res.id
  {
    ParseFormatUint(pg.res.id);
  }

  /** A page without an ID never answers through it, not even to "0". */
  lemma MatchesWithoutID(pg: ComposePage, i: string)
    requires pg.res.id == 0
    ensures pg.Matches(i) <==> pg.res.handle == i || pg.res.title == i
  {
  }

  /** Two pages with distinct positive IDs never both answer to the same
      identifier through their IDs. */
  lemma {:induction false} IDMatchIsUnique(a: ComposePage, b: ComposePage, i: string)
    requires a.res.id > 0 && b.res.id > 0 && a.res.id != b.res.id
    requires a.Matches(i) && b.Matches(i)
    ensures i == a.res.handle || i == a.res.title || i == b.res.handle || i == b.res.title
  {
    if FormatUint(a.res.id) == i && FormatUint(b.res.id) == i {
      FormatUintInjective(a.res.id, b.res.id);
    }
  }
}
