/** Step one of the legend: the list of title and item elements built from the
    legend-bearing layers on screen.  The two shared blocks (`usos_suelo` and
    `seia`) come first, once each, in that fixed order; then every other layer
    contributes its own title and entries in the order it was given. */
module LegendElements {
  import opened Wrappers

  /** One row of a layer's `leyenda` table. */
  datatype Entry = Entry(name: string, color: string, symbol: Option<string>)

  /** What a layer brings to the legend: `titulo_leyenda` (the empty string
      stands for None), its `leyenda` rows and its `leyenda_compartida` key. */
  datatype LegendSource = LegendSource(title: string, entries: seq<Entry>, group: Option<string>)

  datatype Element = Title(text: string) | Item(text: string, color: string, symbol: Option<string>)

  /** The two shared legend tables (`leyenda_comun` and `leyenda_comun_seia`). */
  datatype SharedLegends = SharedLegends(landUse: seq<Entry>, investment: seq<Entry>)

  const LandUseGroup := "usos_suelo"
  const InvestmentGroup := "seia"
  const InvestmentTitle := "Tamaño de inversión (SEIA)"
  const TitleSeparator := " & "

  /** The shared tables as configured: nine land-use rows and three SEIA rows. */
  predicate ConfiguredShape(shared: SharedLegends) {
    |shared.landUse| == 9 && |shared.investment| == 3
  }

  /** The layers of `ls` that belong to group `g`, in order. */
  function Members(ls: seq<LegendSource>, g: string): (m: seq<LegendSource>)
    ensures |m| <= |ls|
    ensures forall k :: 0 <= k < |m| ==> m[k].group == Some(g) && m[k] in ls
    ensures forall k :: 0 <= k < |ls| && ls[k].group == Some(g) ==> ls[k] in m
  {
    if ls == [] then []
    else
      var last := ls[|ls| - 1];
      var init := ls[..|ls| - 1];
      assert forall k :: 0 <= k < |init| ==> init[k] == ls[k];
      Members(init, g) + (if last.group == Some(g) then [last] else [])
  }

  /** Selecting a group's members commutes with concatenation; with
      `MembersOfOne`, `Members` keeps the group's layers in their given order
      and drops every other one. */
  lemma {:induction false} MembersAppend(a: seq<LegendSource>, b: seq<LegendSource>, g: string)
    ensures Members(a + b, g) == Members(a, g) + Members(b, g)
    decreases |b|
  {
    if b == [] {
      assert a + b == a;
    } else {
      var init := b[..|b| - 1];
      assert (a + b)[..|a + b| - 1] == a + init;
      assert (a + b)[|a + b| - 1] == b[|b| - 1];
      MembersAppend(a, init, g);
    }
  }

  /** A single layer is kept exactly when it belongs to the group. */
  lemma MembersOfOne(x: LegendSource, g: string)
    ensures Members([x], g) == if x.group == Some(g) then [x] else []
  {
    assert [x][..0] == [];
  }

  function Titles(ls: seq<LegendSource>): (ts: seq<string>)
    ensures |ts| == |ls| && forall k :: 0 <= k < |ls| ==> ts[k] == ls[k].title
  {
    if ls == [] then [] else Titles(ls[..|ls| - 1]) + [ls[|ls| - 1].title]
  }

  /** Python's `" & ".join(ts)`. */
  function Join(ts: seq<string>): string {
    if |ts| == 0 then ""
    else if |ts| == 1 then ts[0]
    else Join(ts[..|ts| - 1]) + TitleSeparator + ts[|ts| - 1]
  }

  /** Item elements for a table of entries; the land-use block drops the
      symbols (`'simbolo': None`), every other block keeps them. */
  function ItemsOf(entries: seq<Entry>, keepSymbol: bool): (r: seq<Element>)
    ensures |r| == |entries|
    ensures forall k :: 0 <= k < |entries| ==>
              r[k] == Item(entries[k].name, entries[k].color, if keepSymbol then entries[k].symbol else None)
  {
    if entries == [] then []
    else
      var e := entries[|entries| - 1];
      ItemsOf(entries[..|entries| - 1], keepSymbol) + [Item(e.name, e.color, if keepSymbol then e.symbol else None)]
  }

  function LandUseBlock(ls: seq<LegendSource>, shared: SharedLegends): seq<Element> {
    var members := Members(ls, LandUseGroup);
    if members == [] then [] else [Title(Join(Titles(members)))] + ItemsOf(shared.landUse, false)
  }

  function InvestmentBlock(ls: seq<LegendSource>, shared: SharedLegends): seq<Element> {
    if Members(ls, InvestmentGroup) == [] then [] else [Title(InvestmentTitle)] + ItemsOf(shared.investment, true)
  }

  /** `leyendas_ya_agregadas` once both shared blocks have been considered. */
  function Emitted(ls: seq<LegendSource>): set<string> {
    (if Members(ls, LandUseGroup) != [] then {LandUseGroup} else {})
    + (if Members(ls, InvestmentGroup) != [] then {InvestmentGroup} else {})
  }

  predicate Covered(l: LegendSource, emitted: set<string>) {
    l.group.Some? && l.group.value in emitted
  }

  /** A layer's own contribution: its title (when it has one) and its rows, or
      nothing at all when it has no rows. */
  function Own(l: LegendSource): seq<Element> {
    if l.entries == [] then []
    else (if l.title != "" then [Title(l.title)] else []) + ItemsOf(l.entries, true)
  }

  function OwnBlocks(ls: seq<LegendSource>, emitted: set<string>): seq<Element> {
    if ls == [] then []
    else
      var last := ls[|ls| - 1];
      OwnBlocks(ls[..|ls| - 1], emitted) + (if Covered(last, emitted) then [] else Own(last))
  }

  /** The layers' own blocks are empty exactly when every layer they cover
      has no rows. */
  lemma {:induction false} OwnBlocksEmpty(ls: seq<LegendSource>, emitted: set<string>)
    ensures OwnBlocks(ls, emitted) == [] <==> forall k :: 0 <= k < |ls| && !Covered(ls[k], emitted) ==> ls[k].entries == []
  {
    if ls != [] {
      var init := ls[..|ls| - 1];
      OwnBlocksEmpty(init, emitted);
      assert forall k :: 0 <= k < |init| ==> init[k] == ls[k];
    }
  }

  /** A group has no members exactly when no layer belongs to it. */
  lemma NoMembers(ls: seq<LegendSource>, g: string)
    ensures Members(ls, g) == [] <==> forall k :: 0 <= k < |ls| ==> ls[k].group != Some(g)
  {
    if Members(ls, g) != [] {
      assert Members(ls, g)[0] in ls;
    }
  }

  /** The blocks are all empty exactly when no layer belongs to a shared group
      and none has rows of its own. */
  lemma BlocksEmpty(ls: seq<LegendSource>, shared: SharedLegends)
    ensures LandUseBlock(ls, shared) + InvestmentBlock(ls, shared) + OwnBlocks(ls, Emitted(ls)) == [] <==>
              forall k :: 0 <= k < |ls| ==>
                ls[k].group != Some(LandUseGroup) && ls[k].group != Some(InvestmentGroup) && ls[k].entries == []
  {
    NoMembers(ls, LandUseGroup);
    NoMembers(ls, InvestmentGroup);
    if Members(ls, LandUseGroup) == [] && Members(ls, InvestmentGroup) == [] {
      assert Emitted(ls) == {};
      OwnBlocksEmpty(ls, {});
    } else if Members(ls, LandUseGroup) != [] {
      assert LandUseBlock(ls, shared)[0].Title?;
    } else {
      assert InvestmentBlock(ls, shared)[0].Title?;
    }
  }

  /** The element list the legend is laid out from.  It is empty exactly when
      no layer belongs to a shared group and none has rows of its own. */
  function Elements(ls: seq<LegendSource>, shared: SharedLegends): (r: seq<Element>)
    ensures r == [] <==> forall k :: 0 <= k < |ls| ==>
                           ls[k].group != Some(LandUseGroup) && ls[k].group != Some(InvestmentGroup) && ls[k].entries == []
  {
    BlocksEmpty(ls, shared);
    LandUseBlock(ls, shared) + InvestmentBlock(ls, shared) + OwnBlocks(ls, Emitted(ls))
  }

  /** `[capa for capa in ls if capa.leyenda_compartida == g]`. */
  method CollectMembers(ls: seq<LegendSource>, g: string) returns (members: seq<LegendSource>)
    ensures members == Members(ls, g)
  {
    members := [];
    var i := 0;
    while i < |ls|
      invariant 0 <= i <= |ls|
      invariant members == Members(ls[..i], g)
    {
      assert ls[..i + 1][..i] == ls[..i];
      if ls[i].group == Some(g) {
        members := members + [ls[i]];
      }
      i := i + 1;
    }
    assert ls[..|ls|] == ls;
  }

  /** The body of the loop over the other layers, for one layer that is not
      covered by a shared block. */
  method AppendOwn(elems: seq<Element>, l: LegendSource) returns (r: seq<Element>)
    ensures r == elems + Own(l)
  {
    r := elems;
    if l.entries != [] {
      if l.title != "" {
        r := r + [Title(l.title)];
      }
      ghost var before := r;
      var k := 0;
      while k < |l.entries|
        invariant 0 <= k <= |l.entries|
        invariant r == before + ItemsOf(l.entries[..k], true)
      {
        ItemsStep(before, l.entries, k);
        var e := l.entries[k];
        r := r + [Item(e.name, e.color, e.symbol)];
        k := k + 1;
      }
      assert l.entries[..|l.entries|] == l.entries;
    }
  }

  lemma ItemsStep(before: seq<Element>, entries: seq<Entry>, k: nat)
    requires k < |entries|
    ensures before + ItemsOf(entries[..k + 1], true)
         == before + ItemsOf(entries[..k], true) + [Item(entries[k].name, entries[k].color, entries[k].symbol)]
  {
    assert entries[..k + 1][..k] == entries[..k];
  }

  /** The two shared blocks, land use first, and the set of groups they cover. */
  method SharedBlocks(ls: seq<LegendSource>, shared: SharedLegends) returns (elems: seq<Element>, emitted: set<string>)
    ensures elems == LandUseBlock(ls, shared) + InvestmentBlock(ls, shared)
    ensures emitted == Emitted(ls)
  {
    var landUse := CollectMembers(ls, LandUseGroup);
    var landUseBlock: seq<Element> := [];
    emitted := {};
    if landUse != [] {
      landUseBlock := [Title(Join(Titles(landUse)))] + ItemsOf(shared.landUse, false);
      emitted := emitted + {LandUseGroup};
    }
    var investment := CollectMembers(ls, InvestmentGroup);
    var investmentBlock: seq<Element> := [];
    if investment != [] {
      investmentBlock := [Title(InvestmentTitle)] + ItemsOf(shared.investment, true);
      emitted := emitted + {InvestmentGroup};
    }
    elems := landUseBlock + investmentBlock;
  }

  /** The loop over the remaining layers, skipping those whose group was emitted. */
  method OtherLayers(elems: seq<Element>, ls: seq<LegendSource>, emitted: set<string>) returns (r: seq<Element>)
    ensures r == elems + OwnBlocks(ls, emitted)
  {
    r := elems;
    var i := 0;
    while i < |ls|
      invariant 0 <= i <= |ls|
      invariant r == elems + OwnBlocks(ls[..i], emitted)
    {
      OwnBlocksStep(elems, ls, i, emitted);
      if !Covered(ls[i], emitted) {
        r := AppendOwn(r, ls[i]);
      }
      i := i + 1;
    }
    assert ls[..|ls|] == ls;
  }

  lemma OwnBlocksStep(elems: seq<Element>, ls: seq<LegendSource>, i: nat, emitted: set<string>)
    requires i < |ls|
    ensures elems + OwnBlocks(ls[..i + 1], emitted)
         == elems + OwnBlocks(ls[..i], emitted) + (if Covered(ls[i], emitted) then [] else Own(ls[i]))
  {
    assert ls[..i + 1][..i] == ls[..i];
  }

  /** The element generation of the legend. */
  method Generate(ls: seq<LegendSource>, shared: SharedLegends) returns (elems: seq<Element>)
    ensures elems == Elements(ls, shared)
  {
    var blocks, emitted := SharedBlocks(ls, shared);
    elems := OtherLayers(blocks, ls, emitted);
  }

  /** A second, third, ... active land-use layer adds no rows: it only extends
      the merged title by its own. */
  lemma LandUseMemberOnlyRetitles(ls: seq<LegendSource>, m: LegendSource, shared: SharedLegends)
    requires Members(ls, LandUseGroup) != []
    requires m.group == Some(LandUseGroup)
    ensures |Elements(ls + [m], shared)| == |Elements(ls, shared)|
    ensures Elements(ls + [m], shared)
         == Elements(ls, shared)[0 := Title(Join(Titles(Members(ls, LandUseGroup))) + TitleSeparator + m.title)]
  {
    var title' := Join(Titles(Members(ls, LandUseGroup))) + TitleSeparator + m.title;
    var a := LandUseBlock(ls, shared);
    LandUseBlockRetitled(ls, m, shared);
    OthersUnchanged(ls, m, shared);
    var b := InvestmentBlock(ls, shared);
    var c := OwnBlocks(ls, Emitted(ls));
    Associative(a, b, c);
    Associative(a[0 := Title(title')], b, c);
    UpdateFirst(a, b + c, Title(title'));
  }

  lemma LandUseBlockRetitled(ls: seq<LegendSource>, m: LegendSource, shared: SharedLegends)
    requires Members(ls, LandUseGroup) != []
    requires m.group == Some(LandUseGroup)
    ensures LandUseBlock(ls, shared) != []
    ensures LandUseBlock(ls + [m], shared)
         == LandUseBlock(ls, shared)[0 := Title(Join(Titles(Members(ls, LandUseGroup))) + TitleSeparator + m.title)]
  {
    var ls' := ls + [m];
    assert ls'[..|ls'| - 1] == ls;
    var members := Members(ls, LandUseGroup);
    assert Members(ls', LandUseGroup) == members + [m];
    var ts := Titles(members);
    assert Titles(members + [m]) == ts + [m.title] by {
      assert (members + [m])[..|members|] == members;
    }
    assert (ts + [m.title])[..|ts|] == ts;
    var joined := Join(ts + [m.title]);
    assert joined == Join(ts) + TitleSeparator + m.title;
    var items := ItemsOf(shared.landUse, false);
    assert LandUseBlock(ls', shared) == [Title(joined)] + items;
    assert LandUseBlock(ls, shared) == [Title(Join(ts))] + items;
    ReplaceHead(Title(Join(ts)), Title(joined), items);
  }

  lemma ReplaceHead<T>(x: T, y: T, rest: seq<T>)
    ensures ([x] + rest)[0 := y] == [y] + rest
  {
  }

  /** Adding a covered land-use layer leaves the SEIA block and the other
      layers' contributions as they were. */
  lemma OthersUnchanged(ls: seq<LegendSource>, m: LegendSource, shared: SharedLegends)
    requires Members(ls, LandUseGroup) != []
    requires m.group == Some(LandUseGroup)
    ensures InvestmentBlock(ls + [m], shared) == InvestmentBlock(ls, shared)
    ensures Emitted(ls + [m]) == Emitted(ls)
    ensures OwnBlocks(ls + [m], Emitted(ls + [m])) == OwnBlocks(ls, Emitted(ls))
  {
    var ls' := ls + [m];
    assert ls'[..|ls'| - 1] == ls;
    assert Members(ls', LandUseGroup) == Members(ls, LandUseGroup) + [m];
    assert Members(ls', InvestmentGroup) == Members(ls, InvestmentGroup);
    assert Covered(m, Emitted(ls));
  }

  lemma Associative<T>(a: seq<T>, b: seq<T>, c: seq<T>)
    ensures a + b + c == a + (b + c)
  {
  }

  lemma UpdateFirst<T>(a: seq<T>, b: seq<T>, x: T)
    requires a != []
    ensures a[0 := x] + b == (a + b)[0 := x]
  {
  }

  /** A further active SEIA layer changes nothing: the block has a fixed title. */
  lemma InvestmentMemberChangesNothing(ls: seq<LegendSource>, m: LegendSource, shared: SharedLegends)
    requires Members(ls, InvestmentGroup) != []
    requires m.group == Some(InvestmentGroup)
    ensures Elements(ls + [m], shared) == Elements(ls, shared)
  {
    var ls' := ls + [m];
    assert ls'[..|ls'| - 1] == ls;
    assert Members(ls', LandUseGroup) == Members(ls, LandUseGroup);
    assert Members(ls', InvestmentGroup) == Members(ls, InvestmentGroup) + [m];
    assert Emitted(ls') == Emitted(ls);
    assert OwnBlocks(ls', Emitted(ls)) == OwnBlocks(ls, Emitted(ls));
  }

  function CountItems(elems: seq<Element>): nat {
    if elems == [] then 0 else CountItems(elems[..|elems| - 1]) + (if elems[|elems| - 1].Item? then 1 else 0)
  }

  function CountTitles(elems: seq<Element>): nat {
    if elems == [] then 0 else CountTitles(elems[..|elems| - 1]) + (if elems[|elems| - 1].Title? then 1 else 0)
  }

  /** How many rows the layers outside the emitted groups have. */
  function OwnRows(ls: seq<LegendSource>, emitted: set<string>): nat {
    if ls == [] then 0
    else
      var last := ls[|ls| - 1];
      OwnRows(ls[..|ls| - 1], emitted) + (if Covered(last, emitted) then 0 else |last.entries|)
  }

  /** How many titles the layers outside the emitted groups contribute. */
  function OwnTitles(ls: seq<LegendSource>, emitted: set<string>): nat {
    if ls == [] then 0
    else
      var last := ls[|ls| - 1];
      OwnTitles(ls[..|ls| - 1], emitted)
      + (if !Covered(last, emitted) && last.entries != [] && last.title != "" then 1 else 0)
  }

  lemma {:induction false} CountsAppend(a: seq<Element>, b: seq<Element>)
    ensures CountItems(a + b) == CountItems(a) + CountItems(b)
    ensures CountTitles(a + b) == CountTitles(a) + CountTitles(b)
    decreases |b|
  {
    if b == [] {
      assert a + b == a;
    } else {
      assert (a + b)[..|a + b| - 1] == a + b[..|b| - 1];
      CountsAppend(a, b[..|b| - 1]);
    }
  }

  lemma {:induction false} ItemsOfCounts(entries: seq<Entry>, keepSymbol: bool)
    ensures CountItems(ItemsOf(entries, keepSymbol)) == |entries|
    ensures CountTitles(ItemsOf(entries, keepSymbol)) == 0
  {
    if entries != [] {
      var r := ItemsOf(entries, keepSymbol);
      assert r[..|r| - 1] == ItemsOf(entries[..|entries| - 1], keepSymbol);
      ItemsOfCounts(entries[..|entries| - 1], keepSymbol);
    }
  }

  lemma {:induction false} OwnBlocksCounts(ls: seq<LegendSource>, emitted: set<string>)
    ensures CountItems(OwnBlocks(ls, emitted)) == OwnRows(ls, emitted)
    ensures CountTitles(OwnBlocks(ls, emitted)) == OwnTitles(ls, emitted)
  {
    if ls != [] {
      var last := ls[|ls| - 1];
      OwnBlocksCounts(ls[..|ls| - 1], emitted);
      var own := if Covered(last, emitted) then [] else Own(last);
      CountsAppend(OwnBlocks(ls[..|ls| - 1], emitted), own);
      if !Covered(last, emitted) && last.entries != [] {
        var head := if last.title != "" then [Title(last.title)] else [];
        CountsAppend(head, ItemsOf(last.entries, true));
        ItemsOfCounts(last.entries, true);
        assert CountItems(head) == 0;
      }
    }
  }

  /** Nothing is dropped and nothing is repeated: the legend has one row per
      shared-table row of each emitted group, once, plus every row of every
      other legend-bearing layer; and one title per emitted group plus one per
      other layer that has rows and a title. */
  lemma ElementCounts(ls: seq<LegendSource>, shared: SharedLegends)
    ensures CountItems(Elements(ls, shared))
         == (if Members(ls, LandUseGroup) != [] then |shared.landUse| else 0)
          + (if Members(ls, InvestmentGroup) != [] then |shared.investment| else 0)
          + OwnRows(ls, Emitted(ls))
    ensures CountTitles(Elements(ls, shared))
         == (if Members(ls, LandUseGroup) != [] then 1 else 0)
          + (if Members(ls, InvestmentGroup) != [] then 1 else 0)
          + OwnTitles(ls, Emitted(ls))
  {
    var lu := LandUseBlock(ls, shared);
    var inv := InvestmentBlock(ls, shared);
    var own := OwnBlocks(ls, Emitted(ls));
    CountsAppend(lu + inv, own);
    CountsAppend(lu, inv);
    OwnBlocksCounts(ls, Emitted(ls));
    if Members(ls, LandUseGroup) != [] {
      CountsAppend([Title(Join(Titles(Members(ls, LandUseGroup))))], ItemsOf(shared.landUse, false));
      ItemsOfCounts(shared.landUse, false);
    }
    if Members(ls, InvestmentGroup) != [] {
      CountsAppend([Title(InvestmentTitle)], ItemsOf(shared.investment, true));
      ItemsOfCounts(shared.investment, true);
    }
  }

  /** The two-members scenario: two active land-use layers and nothing else
      give one merged title and the nine shared rows, not two titles and
      eighteen rows. */
  lemma TwoLandUseLayers(a: LegendSource, b: LegendSource, shared: SharedLegends)
    requires a.group == Some(LandUseGroup) && b.group == Some(LandUseGroup)
    requires ConfiguredShape(shared)
    ensures Elements([a, b], shared) == [Title(a.title + TitleSeparator + b.title)] + ItemsOf(shared.landUse, false)
    ensures |Elements([a, b], shared)| == 10
  {
    OneLandUseLayer(a, shared);
    assert [a] + [b] == [a, b];
    LandUseMemberOnlyRetitles([a], b, shared);
    assert Join(Titles([a])) == a.title;
    assert Elements([a], shared)[0 := Title(a.title + TitleSeparator + b.title)]
        == [Title(a.title + TitleSeparator + b.title)] + ItemsOf(shared.landUse, false);
  }

  /** A single land-use layer gives its own title over the shared rows. */
  lemma OneLandUseLayer(a: LegendSource, shared: SharedLegends)
    requires a.group == Some(LandUseGroup)
    ensures Members([a], LandUseGroup) == [a] && Members([a], InvestmentGroup) == []
    ensures Elements([a], shared) == [Title(a.title)] + ItemsOf(shared.landUse, false)
  {
    assert [a][..0] == [];
    assert Titles([a]) == [a.title];
    assert Emitted([a]) == {LandUseGroup};
    assert OwnBlocks([a], Emitted([a])) == [];
  }
}
