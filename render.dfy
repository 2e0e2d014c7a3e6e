/** The render list of `draw` (components/FireworksStage.tsx:232-291): every shell and every
    particle in front of the camera is projected, and the list is sorted back to front
    (painter's algorithm). The projection itself (rotation by the mouse-driven angles and the
    perspective divide) is an input; the canvas calls that follow the sort are drawing only. */
module Render {
  import opened Support
  import opened FireworksTypes

  /** A projected point: screen position, depth after rotation, and perspective scale. */
  datatype Projected = Projected(x: real, y: real, z: real, scale: real)

  type Projector = Vector3 -> Projected

  /** One entry of the render list. */
  datatype RenderItem =
    | ShellMark(view: Projected, shellHue: real)
    | ParticleMark(kind: ParticleType, view: Projected, hue: int, alpha: real, size: real)
  {
    function Depth(): real {
      view.z
    }
  }

  /** The culling test for particles: in front of the camera and not too far behind the origin. */
  predicate Visible(v: Projected) {
    v.scale > 0.0 && v.z > -500.0
  }

  function ShellItem(s: Shell, project: Projector): RenderItem {
    ShellMark(project(s.pos), s.hue)
  }

  function ParticleItem(p: Particle3D, project: Projector): RenderItem {
    ParticleMark(p.kind, project(p.pos), p.hue, p.alpha, p.size)
  }

  /** One entry per shell, in order; shells are never culled. */
  function ShellItems(shells: seq<Shell>, project: Projector): (r: seq<RenderItem>)
    ensures |r| == |shells|
    ensures forall k :: 0 <= k < |r| ==> r[k] == ShellItem(shells[k], project)
  {
    if shells == [] then []
    else ShellItems(shells[..|shells| - 1], project) + [ShellItem(shells[|shells| - 1], project)]
  }

  /** The culling test of `draw`, applied to a particle. */
  function Shown(project: Projector): Particle3D -> bool {
    (p: Particle3D) => Visible(project(p.pos))
  }

  function ItemOf(project: Projector): Particle3D -> RenderItem {
    (p: Particle3D) => ParticleItem(p, project)
  }

  /** One entry per visible particle, in order: the entries are the items of the particles
      the culling test keeps, each once and in list order. */
  function ParticleItems(ps: seq<Particle3D>, project: Projector): (r: seq<RenderItem>)
    ensures r == Map(Filter(ps, Shown(project)), ItemOf(project))
    ensures forall k :: 0 <= k < |r| ==>
      r[k].ParticleMark? && Visible(r[k].view) && exists j :: 0 <= j < |ps| && r[k] == ParticleItem(ps[j], project)
  {
    if ps == [] then []
    else
      var front := ps[..|ps| - 1];
      var init := ParticleItems(front, project);
      var last := ps[|ps| - 1];
      var r := init + (if Visible(project(last.pos)) then [ParticleItem(last, project)] else []);
      assert ps == front + [last];
      FilterSnoc(front, last, Shown(project));
      MapAppend(Filter(front, Shown(project)), if Shown(project)(last) then [last] else [], ItemOf(project));
      assert forall k :: 0 <= k < |init| ==> r[k] == init[k];
      assert forall j :: 0 <= j < |ps| - 1 ==> front[j] == ps[j];
      r
  }

  /** No visible particle is left out. */
  lemma {:induction false} ParticleItemsComplete(ps: seq<Particle3D>, project: Projector, j: int)
    requires 0 <= j < |ps| && Visible(project(ps[j].pos))
    ensures ParticleItem(ps[j], project) in ParticleItems(ps, project)
  {
    if j < |ps| - 1 {
      ParticleItemsComplete(ps[..|ps| - 1], project, j);
      assert ps[..|ps| - 1][j] == ps[j];
    }
  }

  /** The unsorted render list: the shells, then the visible particles. */
  function RenderEntries(shells: seq<Shell>, ps: seq<Particle3D>, project: Projector): seq<RenderItem> {
    ShellItems(shells, project) + ParticleItems(ps, project)
  }

  /** The two `forEach` passes of `draw` that fill the render list. */
  method BuildRenderList(shells: seq<Shell>, ps: seq<Particle3D>, project: Projector)
    returns (list: seq<RenderItem>)
    ensures list == RenderEntries(shells, ps, project)
  {
    list := [];
    var i := 0;
    while i < |shells|
      invariant 0 <= i <= |shells|
      invariant list == ShellItems(shells[..i], project)
    {
      assert shells[..i + 1][..i] == shells[..i];
      list := list + [ShellItem(shells[i], project)];
      i := i + 1;
    }
    assert shells[..i] == shells;
    ghost var head := list;
    i := 0;
    while i < |ps|
      invariant 0 <= i <= |ps|
      invariant list == head + ParticleItems(ps[..i], project)
    {
      ParticleItemsStep(ps, i, project);
      var view := project(ps[i].pos);
      if view.scale > 0.0 && view.z > -500.0 {
        AppendAssoc(head, ParticleItems(ps[..i], project), [ParticleItem(ps[i], project)]);
        list := list + [ParticleItem(ps[i], project)];
      }
      i := i + 1;
    }
    assert ps[..i] == ps;
  }

  /** The particle entries of one more particle. */
  lemma ParticleItemsStep(ps: seq<Particle3D>, i: nat, project: Projector)
    requires i < |ps|
    ensures ParticleItems(ps[..i + 1], project)
         == ParticleItems(ps[..i], project) + (if Visible(project(ps[i].pos)) then [ParticleItem(ps[i], project)] else [])
  {
    assert ps[..i + 1][..i] == ps[..i];
  }

  /** Back to front: depth never increases along the list. */
  predicate DepthOrdered(s: seq<RenderItem>) {
    forall i, j :: 0 <= i < j < |s| ==> s[i].Depth() >= s[j].Depth()
  }

  /** The entries at depth d, in list order. */
  function AtDepth(s: seq<RenderItem>, d: real): seq<RenderItem> {
    if s == [] then [] else (if s[0].Depth() == d then [s[0]] else []) + AtDepth(s[1..], d)
  }

  /** Put x in front of the first entry that is not deeper than it. */
  function InsertByDepth(x: RenderItem, s: seq<RenderItem>): (r: seq<RenderItem>)
    ensures multiset(r) == multiset(s) + multiset{x}
  {
    if s == [] || s[0].Depth() <= x.Depth() then [x] + s
    else
      assert s == [s[0]] + s[1..];
      [s[0]] + InsertByDepth(x, s[1..])
  }

  /** Inserting into a back-to-front list keeps it back to front. */
  lemma {:induction false} InsertOrdered(x: RenderItem, s: seq<RenderItem>)
    requires DepthOrdered(s)
    ensures DepthOrdered(InsertByDepth(x, s))
  {
    if !(s == [] || s[0].Depth() <= x.Depth()) {
      var rest := InsertByDepth(x, s[1..]);
      InsertOrdered(x, s[1..]);
      assert s == [s[0]] + s[1..];
      forall k | 0 <= k < |rest|
        ensures s[0].Depth() >= rest[k].Depth()
      {
        assert rest[k] in multiset(rest);
        assert rest[k] == x || rest[k] in multiset(s[1..]);
      }
    }
  }

  /** Inserted ahead of every entry of equal depth: the entries at each depth keep their order. */
  lemma {:induction false} InsertAtDepth(x: RenderItem, s: seq<RenderItem>, d: real)
    ensures AtDepth(InsertByDepth(x, s), d) == (if x.Depth() == d then [x] else []) + AtDepth(s, d)
  {
    if s == [] || s[0].Depth() <= x.Depth() {
      var r := [x] + s;
      assert r[0] == x && r[1..] == s;
    } else {
      var rest := InsertByDepth(x, s[1..]);
      var r := [s[0]] + rest;
      assert r[0] == s[0] && r[1..] == rest;
      InsertAtDepth(x, s[1..], d);
    }
  }

  /** `renderList.sort((a, b) => b.z - a.z)`: a stable sort by decreasing depth. */
  function SortByDepth(s: seq<RenderItem>): (r: seq<RenderItem>)
    ensures multiset(r) == multiset(s)
    ensures DepthOrdered(r)
  {
    if s == [] then []
    else
      assert s == [s[0]] + s[1..];
      InsertOrdered(s[0], SortByDepth(s[1..]));
      InsertByDepth(s[0], SortByDepth(s[1..]))
  }

  /** The sort is stable: the entries of every depth come out in the order they went in. */
  lemma {:induction false} SortStable(s: seq<RenderItem>, d: real)
    ensures AtDepth(SortByDepth(s), d) == AtDepth(s, d)
  {
    if s != [] {
      SortStable(s[1..], d);
      InsertAtDepth(s[0], SortByDepth(s[1..]), d);
    }
  }

  /** A list that is already back to front is left as it is. */
  lemma {:induction false} SortOrderedIsIdentity(s: seq<RenderItem>)
    requires DepthOrdered(s)
    ensures SortByDepth(s) == s
  {
    if s != [] {
      SortOrderedIsIdentity(s[1..]);
      assert SortByDepth(s[1..]) == s[1..];
      assert s == [s[0]] + s[1..];
    }
  }
}
