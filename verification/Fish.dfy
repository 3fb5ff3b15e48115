/**
 * The Distributed Fish Protocol (blt/srv/fish/fish.c).  A fish that swims out of a
 * tank is offered to the neighbour (SEND), taken out of the tank when the
 * neighbour accepts (ACK), and recreated there by the last packet (SYNC); an offer
 * nobody answers is withdrawn after a time.
 */
module Fish {
  import opened Wrappers

  datatype FishState = DEAD | LIVE | XMIT

  /** Who made a fish, and a time stamp; two fish may well have the same one. */
  datatype Uid = Uid(x: int, y: int, stamp: int)

  /** What travels: positions in a byte, speeds in a signed byte. */
  datatype Cargo = Cargo(x: nat, y: nat, dx: int, dy: int)

  /** `token` is not in the program: it names the fish itself, wherever it swims. */
  datatype Fish = Fish(token: nat, x: int, y: int, dx: int, dy: int, state: FishState, xt: int, uid: Uid, cargo: Cargo,
      dest: nat)

  const TIMEOUT := 8

  const UP := 0
  const DN := 1
  const LF := 2
  const RT := 3

  type Links = l: seq<bool> | |l| == 4 witness [false, false, false, false]

  // ---- counting

  /** The fish of a list that are not dead, by name. */
  ghost function Alive(fish: seq<Fish>): multiset<nat> {
    if fish == [] then multiset{}
    else Alive(fish[..|fish| - 1]) + One(fish[|fish| - 1])
  }

  ghost function One(f: Fish): multiset<nat> {
    if f.state != DEAD then multiset{f.token} else multiset{}
  }

  lemma {:induction false} AliveConcat(a: seq<Fish>, b: seq<Fish>)
    ensures Alive(a + b) == Alive(a) + Alive(b)
    decreases |b|
  {
    hide One;
    if b == [] {
      assert a + b == a;
    } else {
      var l := |b| - 1;
      AliveConcat(a, b[..l]);
      assert (a + b)[|a + b| - 1] == b[l];
      assert (a + b)[..|a + b| - 1] == a + b[..l];
    }
  }

  lemma AliveOne(f: Fish)
    ensures Alive([f]) == if f.state != DEAD then multiset{f.token} else multiset{}
  {
    assert [f][..0] == [];
  }

  /** Replacing one fish. */
  lemma AliveUpdate(fish: seq<Fish>, i: nat, g: Fish)
    requires i < |fish|
    ensures Alive(fish[i := g]) + Alive([fish[i]]) == Alive(fish) + Alive([g])
  {
    var a, b := fish[..i], fish[i + 1..];
    assert fish == a + ([fish[i]] + b) && fish[i := g] == a + ([g] + b);
    AliveConcat(a, [fish[i]] + b);
    AliveConcat([fish[i]], b);
    AliveConcat(a, [g] + b);
    AliveConcat([g], b);
  }

  // ---- an acknowledgement

  /** The first fish on offer under `uid`. */
  function FirstOffer(fish: seq<Fish>, uid: Uid): (i: nat)
    ensures i <= |fish|
    ensures i < |fish| ==> fish[i].state == XMIT && fish[i].uid == uid
    ensures forall j :: 0 <= j < i ==> !(fish[j].state == XMIT && fish[j].uid == uid)
  {
    if fish == [] then 0
    else if fish[0].state == XMIT && fish[0].uid == uid then 0
    else 1 + FirstOffer(fish[1..], uid)
  }

  /** An acknowledgement takes one fish on offer out of the tank, if there is one. */
  function Acked(fish: seq<Fish>, uid: Uid): seq<Fish> {
    var i := FirstOffer(fish, uid);
    if i == |fish| then fish else fish[i := fish[i].(state := DEAD)]
  }

  lemma AckedAlive(fish: seq<Fish>, uid: Uid)
    ensures var i := FirstOffer(fish, uid);
            Alive(fish) == Alive(Acked(fish, uid)) + if i == |fish| then multiset{} else multiset{fish[i].token}
  {
    var i := FirstOffer(fish, uid);
    if i < |fish| {
      AliveUpdate(fish, i, fish[i].(state := DEAD));
      AliveOne(fish[i]);
      AliveOne(fish[i].(state := DEAD));
    }
  }

  // ---- one frame of the tank

  function SignedByte(d: int): int {
    (d + 128) % 256 - 128
  }

  function Offered(f: Fish, xd: nat, ticks: int): Fish {
    f.(cargo := Cargo(f.x % 256, f.y % 256, SignedByte(f.dx), SignedByte(f.dy)), state := XMIT, xt := ticks + TIMEOUT,
      dest := xd)
  }

  /** Through which side a fish leaves, 4 for none, and where it will come in on the other side. */
  function Exit(f: Fish, links: Links): (r: (nat, int, int))
    ensures r.0 <= 4
  {
    var (xd0, x0) := if f.x < 0 && links[LF] then (LF, 254) else (4, f.x);
    var (xd1, x1) := if x0 > 255 && links[RT] then (RT, 1) else (xd0, x0);
    var (xd2, y0) := if f.y < 0 && links[UP] && xd1 == 4 then (UP, 254) else (xd1, f.y);
    if y0 > 255 && links[DN] && xd2 == 4 then (DN, x1, 1) else (xd2, x1, y0)
  }

  /** A fish turns round at the sides it has reached, whether or not it leaves. */
  function Bounced(f: Fish, x: int, y: int): Fish {
    var g := if x < 0 || x > 255 then f.(dx := -f.dx, x := x - f.dx) else f;
    if y < 0 || y > 255 then g.(dy := -g.dy, y := y - g.dy) else g
  }

  datatype Mode = Mode(ticks: int, sticky: bool, recluse: bool)

  /** An offer that was not answered in time is withdrawn, and the neighbour taken to be gone. */
  function TimedOut(f: Fish, links: Links, ticks: int): (Fish, Links) {
    if f.state == XMIT && ticks > f.xt then (f.(state := LIVE), if f.dest < 4 then links[f.dest := false] else links)
      else (f, links)
  }

  /** A live fish at the edge, and whether it is skipped for the rest of the frame. */
  function Crossed(f: Fish, links: Links, mode: Mode): (Fish, bool) {
    var (xd, x, y) := Exit(f, links);
    var g := f.(x := x, y := y);
    var h := if !mode.sticky && !mode.recluse && xd != 4 then Offered(g, xd, mode.ticks) else g;
    (Bounced(h, f.x, f.y), xd != 4)
  }

  /**
   * One pass over the list.  `kept` ends with the fish that the program's trailing pointer is at
   * (it is empty while the pointer is null), `skipped` are those after it that left, and `rest` is to
   * come.  A dead fish is unlinked from the trailing pointer on, and the skipped ones with it.
   */
  function Swept(kept: seq<Fish>, skipped: seq<Fish>, rest: seq<Fish>, links: Links, mode: Mode): (seq<Fish>, Links)
    decreases |rest|
  {
    if rest == [] then (kept + skipped, links)
    else if rest[0].state == DEAD && kept != [] then Swept(kept, [], rest[1..], links, mode)
    else
      var (f, l) := TimedOut(rest[0], links, mode.ticks);
      if f.state != LIVE then Swept(kept + skipped + [f], [], rest[1..], l, mode)
      else
        var (g, skip) := Crossed(f, l, mode);
        if skip then Swept(kept, skipped + [g], rest[1..], l, mode)
        else Swept(kept + skipped + [g.(x := g.x + g.dx, y := g.y + g.dy)], [], rest[1..], l, mode)
  }

  /** Somewhere in the pass a dead fish is unlinked together with fish that are leaving. */
  ghost predicate Orphans(kept: seq<Fish>, skipped: seq<Fish>, rest: seq<Fish>, links: Links, mode: Mode)
    decreases |rest|
  {
    if rest == [] then false
    else if rest[0].state == DEAD && kept != [] then skipped != [] || Orphans(kept, [], rest[1..], links, mode)
    else
      var (f, l) := TimedOut(rest[0], links, mode.ticks);
      if f.state != LIVE then Orphans(kept + skipped + [f], [], rest[1..], l, mode)
      else
        var (g, skip) := Crossed(f, l, mode);
        if skip then Orphans(kept, skipped + [g], rest[1..], l, mode)
        else Orphans(kept + skipped + [g.(x := g.x + g.dx, y := g.y + g.dy)], [], rest[1..], l, mode)
  }

  ghost predicate NoneDead(fish: seq<Fish>) {
    forall i :: 0 <= i < |fish| ==> fish[i].state != DEAD
  }

  lemma {:induction false} AliveCount(fish: seq<Fish>)
    requires NoneDead(fish)
    ensures |Alive(fish)| == |fish|
  {
    if fish != [] {
      AliveCount(fish[..|fish| - 1]);
    }
  }

  lemma Parts(kept: seq<Fish>, skipped: seq<Fish>, rest: seq<Fish>, f: Fish)
    requires rest != []
    requires f.token == rest[0].token && (f.state == DEAD <==> rest[0].state == DEAD)
    ensures Alive(kept + skipped + [f]) == Alive(kept) + Alive(skipped) + Alive([rest[0]])
    ensures Alive(skipped + [f]) == Alive(skipped) + Alive([rest[0]])
    ensures Alive(rest) == Alive([rest[0]]) + Alive(rest[1..])
  {
    hide Alive;
    AliveConcat(kept, skipped);
    AliveConcat(kept + skipped, [f]);
    AliveConcat(skipped, [f]);
    AliveConcat([rest[0]], rest[1..]);
    assert [rest[0]] + rest[1..] == rest;
    AliveOne(f);
    AliveOne(rest[0]);
  }

  /** A pass makes no fish, and loses one exactly when it orphans one. */
  lemma {:induction false} SweptAlive(kept: seq<Fish>, skipped: seq<Fish>, rest: seq<Fish>, links: Links, mode: Mode)
    requires NoneDead(skipped)
    ensures var before := Alive(kept) + Alive(skipped) + Alive(rest);
            var after := Alive(Swept(kept, skipped, rest, links, mode).0);
            after <= before && (after == before <==> !Orphans(kept, skipped, rest, links, mode))
    decreases |rest|
  {
    hide Crossed, TimedOut, Alive;
    if rest == [] {
      AliveConcat(kept, skipped);
      assert Alive(rest) == multiset{} by { NoFish(rest); }
    } else if rest[0].state == DEAD && kept != [] {
      Parts(kept, skipped, rest, rest[0]);
      AliveOne(rest[0]);
      NoFish([]);
      AliveCount(skipped);
      SweptAlive(kept, [], rest[1..], links, mode);
    } else {
      SameFish(rest[0], links, mode);
      var (f, l) := TimedOut(rest[0], links, mode.ticks);
      NoFish([]);
      if f.state != LIVE {
        Parts(kept, skipped, rest, f);
        SweptAlive(kept + skipped + [f], [], rest[1..], l, mode);
      } else {
        var (g, skip) := Crossed(f, l, mode);
        CrossedSame(f, l, mode);
        if skip {
          Parts(kept, skipped, rest, g);
          SweptAlive(kept, skipped + [g], rest[1..], l, mode);
        } else {
          var h := g.(x := g.x + g.dx, y := g.y + g.dy);
          Parts(kept, skipped, rest, h);
          SweptAlive(kept + skipped + [h], [], rest[1..], l, mode);
        }
      }
    }
  }

  lemma NoFish(fish: seq<Fish>)
    requires fish == []
    ensures Alive(fish) == multiset{}
  {
  }

  lemma SameFish(f: Fish, links: Links, mode: Mode)
    ensures var g := TimedOut(f, links, mode.ticks).0; g.token == f.token && (g.state == DEAD <==> f.state == DEAD)
  {
  }

  lemma CrossedSame(f: Fish, links: Links, mode: Mode)
    requires f.state == LIVE
    ensures var g := Crossed(f, links, mode).0; g.token == f.token && g.state != DEAD
  {
  }

  /** The links when the pass comes to what follows `fish`: those that time out are cut by then. */
  function LinksAt(fish: seq<Fish>, links: Links, ticks: int): Links {
    if fish == [] then links else TimedOut(fish[|fish| - 1], LinksAt(fish[..|fish| - 1], links, ticks), ticks).1
  }

  /** Fish `j` of the list leaves in this frame. */
  predicate Leaves(fish: seq<Fish>, j: nat, links: Links, mode: Mode)
    requires j < |fish|
  {
    var (f, l) := TimedOut(fish[j], LinksAt(fish[..j], links, mode.ticks), mode.ticks);
    f.state == LIVE && Exit(f, l).0 != 4
  }

  // ---- what a frame does to each fish

  /** The side a fish leaves by: left and right before up and down, and only where somebody is. */
  lemma SideExactly(f: Fish, links: Links)
    ensures var side := Exit(f, links).0;
            var left, right := f.x < 0 && links[LF], f.x > 255 && links[RT];
            && (side == LF <==> left) && (side == RT <==> right)
            && (side == UP <==> f.y < 0 && links[UP] && !left && !right)
            && (side == DN <==> f.y > 255 && links[DN] && !left && !right)
            && (side == 4 <==> !left && !right && !(f.y < 0 && links[UP]) && !(f.y > 255 && links[DN]))
  {
  }

  /** A fish on offer: what of it travels is its place on the other side, and its speed. */
  ghost predicate OnOffer(f: Fish, g: Fish, side: nat, ticks: int) {
    && g.token == f.token && g.uid == f.uid && g.state == XMIT && g.dest == side && g.xt == ticks + 8
    && g.cargo.x == (if side == LF then 254 else if side == RT then 1 else f.x % 256)
    && g.cargo.y == (if side == UP then 254 else if side == DN then 1 else f.y % 256)
    && (-128 <= f.dx < 128 ==> g.cargo.dx == f.dx) && (-128 <= f.dy < 128 ==> g.cargo.dy == f.dy)
    && -128 <= g.cargo.dx < 128 && -128 <= g.cargo.dy < 128
    && (g.cargo.dx - f.dx) % 256 == 0 && (g.cargo.dy - f.dy) % 256 == 0
  }

  /** A fish outside its tank turns round to where it came from; `x` is where it is if it is inside. */
  predicate Turned(was: int, speed: int, x: int, now: int, pace: int) {
    if was < 0 || was > 255 then pace == -speed && now == was - speed else pace == speed && now == x
  }

  /** A live fish in a frame, before it moves: offered if it leaves and the tank lets it, and turned round. */
  lemma CrossedExactly(f: Fish, links: Links, mode: Mode)
    ensures var (g, skip) := Crossed(f, links, mode);
            var (side, x, y) := Exit(f, links);
            && (skip <==> side != 4)
            && (if side != 4 && !mode.sticky && !mode.recluse then OnOffer(f, g, side, mode.ticks)
                else g == f.(x := g.x, y := g.y, dx := g.dx, dy := g.dy))
            && (side != LF && side != RT ==> x == f.x) && (side != UP && side != DN ==> y == f.y)
            && Turned(f.x, f.dx, x, g.x, g.dx) && Turned(f.y, f.dy, y, g.y, g.dy)
  {
    SideExactly(f, links);
    SignedByteIs(f.dx);
    SignedByteIs(f.dy);
    hide SignedByte;
  }

  lemma SignedByteIs(d: int)
    ensures -128 <= SignedByte(d) < 128 && (SignedByte(d) - d) % 256 == 0 && (-128 <= d < 128 ==> SignedByte(d) == d)
  {
  }

  /** An offer is withdrawn exactly when it is late, and then the link it went by is cut. */
  lemma TimedOutExactly(f: Fish, links: Links, ticks: int)
    ensures var (g, l) := TimedOut(f, links, ticks);
            if f.state == XMIT && f.xt < ticks then
              g == f.(state := LIVE) && forall i :: 0 <= i < 4 ==> l[i] == (links[i] && i != f.dest)
            else g == f && l == links
  {
  }

  /** A live fish that does not leave, after a frame. */
  function Swum(f: Fish, links: Links, mode: Mode): Fish {
    var g := Crossed(f, links, mode).0;
    g.(x := g.x + g.dx, y := g.y + g.dy)
  }

  /** It has moved by its speed, or turned round and moved twice, since it turned from where it came from. */
  lemma SwumExactly(f: Fish, links: Links, mode: Mode)
    requires Exit(f, links).0 == 4
    ensures var g := Swum(f, links, mode);
            && g == f.(x := g.x, y := g.y, dx := g.dx, dy := g.dy)
            && (if 0 <= f.x <= 255 then g.x == f.x + f.dx && g.dx == f.dx else g.x == f.x - 2 * f.dx && g.dx == -f.dx)
            && (if 0 <= f.y <= 255 then g.y == f.y + f.dy && g.dy == f.dy else g.y == f.y - 2 * f.dy && g.dy == -f.dy)
  {
    hide Crossed, Exit;
    CrossedExactly(f, links, mode);
  }

  /** A fish after a frame, if no dead one unlinks it. */
  function Framed(f: Fish, links: Links, mode: Mode): Fish {
    var (g, l) := TimedOut(f, links, mode.ticks);
    if g.state != LIVE then g else if Exit(g, l).0 != 4 then Crossed(g, l, mode).0 else Swum(g, l, mode)
  }

  /** A whole list of them. */
  ghost function FramedAll(fish: seq<Fish>, links: Links, mode: Mode): (r: seq<Fish>)
    ensures |r| == |fish|
  {
    if fish == [] then []
    else
      var rest := fish[..|fish| - 1];
      FramedAll(rest, links, mode) + [Framed(fish[|fish| - 1], LinksAt(rest, links, mode.ticks), mode)]
  }

  lemma {:induction false} FramedAt(fish: seq<Fish>, i: nat, links: Links, mode: Mode)
    requires i < |fish|
    ensures FramedAll(fish, links, mode)[i] == Framed(fish[i], LinksAt(fish[..i], links, mode.ticks), mode)
  {
    hide Framed;
    var rest := fish[..|fish| - 1];
    if i < |rest| {
      FramedAt(rest, i, links, mode);
      assert rest[i] == fish[i] && rest[..i] == fish[..i];
    } else {
      assert rest == fish[..i];
    }
  }

  /** One fish more. */
  lemma FramedMore(done: seq<Fish>, f: Fish, links: Links, mode: Mode)
    ensures var l := LinksAt(done, links, mode.ticks);
            && FramedAll(done + [f], links, mode) == FramedAll(done, links, mode) + [Framed(f, l, mode)]
            && LinksAt(done + [f], links, mode.ticks) == TimedOut(f, l, mode.ticks).1
  {
    hide Framed, TimedOut;
    assert (done + [f])[..|done|] == done;
  }

  lemma {:induction false} SweptFrom(done: seq<Fish>, rest: seq<Fish>, kept: seq<Fish>, skipped: seq<Fish>,
      links: Links, mode: Mode)
    requires kept + skipped == FramedAll(done, links, mode) && forall i :: 0 <= i < |rest| ==> rest[i].state != DEAD
    ensures Swept(kept, skipped, rest, LinksAt(done, links, mode.ticks), mode) ==
      (FramedAll(done + rest, links, mode), LinksAt(done + rest, links, mode.ticks))
    decreases |rest|
  {
    hide Crossed, Exit, TimedOut, Swum, FramedAll, LinksAt;
    if rest == [] {
      assert done + rest == done;
    } else {
      var f, l := rest[0], LinksAt(done, links, mode.ticks);
      assert done + rest == done + [f] + rest[1..];
      FramedMore(done, f, links, mode);
      var (h, k) := TimedOut(f, l, mode.ticks);
      CrossedSide(h, k, mode);
      var g := Framed(f, l, mode);
      if h.state == LIVE && Exit(h, k).0 != 4 {
        assert kept + (skipped + [g]) == kept + skipped + [g];
        SweptFrom(done + [f], rest[1..], kept, skipped + [g], links, mode);
      } else {
        assert kept + skipped + [g] + [] == kept + skipped + [g];
        SweptFrom(done + [f], rest[1..], kept + skipped + [g], [], links, mode);
      }
    }
  }

  lemma CrossedSide(f: Fish, links: Links, mode: Mode)
    ensures Crossed(f, links, mode).1 <==> Exit(f, links).0 != 4
    ensures var g := Crossed(f, links, mode).0; Swum(f, links, mode) == g.(x := g.x + g.dx, y := g.y + g.dy)
  {
  }

  /** With nobody dead, a frame does to each fish, in its place, what it does to a fish. */
  lemma SweptEach(fish: seq<Fish>, links: Links, mode: Mode)
    requires forall i :: 0 <= i < |fish| ==> fish[i].state != DEAD
    ensures var (r, l) := Swept([], [], fish, links, mode);
            && l == LinksAt(fish, links, mode.ticks) && |r| == |fish|
            && (forall i {:trigger fish[i]} :: 0 <= i < |fish| ==>
                 r[i] == Framed(fish[i], LinksAt(fish[..i], links, mode.ticks), mode))
  {
    hide Framed, Swept, FramedAll;
    assert FramedAll([], links, mode) == [] && LinksAt([], links, mode.ticks) == links;
    assert [] + [] == FramedAll([], links, mode) && [] + fish == fish;
    SweptFrom([], fish, [], [], links, mode);
    forall i {:trigger fish[i]} | 0 <= i < |fish|
      ensures FramedAll(fish, links, mode)[i] == Framed(fish[i], LinksAt(fish[..i], links, mode.ticks), mode)
    {
      FramedAt(fish, i, links, mode);
    }
  }

  // ---- which fish a frame loses

  /** One of the first `k` fish does not leave. */
  ghost predicate Anchored(fish: seq<Fish>, k: nat, links: Links, mode: Mode)
    requires k <= |fish|
  {
    exists i {:trigger Leaves(fish, i, links, mode)} :: 0 <= i < k && !Leaves(fish, i, links, mode)
  }

  /** Fish `j` is dead and comes right behind one that leaves, and one that does not leave comes before both. */
  ghost predicate Strander(fish: seq<Fish>, j: nat, links: Links, mode: Mode)
    requires j < |fish|
  {
    j > 0 && fish[j].state == DEAD && Leaves(fish, j - 1, links, mode) && Anchored(fish, j - 1, links, mode)
  }

  ghost predicate Strands(fish: seq<Fish>, links: Links, mode: Mode, from: nat) {
    exists j {:trigger Strander(fish, j, links, mode)} :: from <= j < |fish| && Strander(fish, j, links, mode)
  }

  lemma AnchoredNext(fish: seq<Fish>, k: nat, links: Links, mode: Mode)
    requires k < |fish|
    ensures Anchored(fish, k + 1, links, mode) <==> Anchored(fish, k, links, mode) || !Leaves(fish, k, links, mode)
  {
    hide Leaves;
  }

  lemma StrandsNext(fish: seq<Fish>, k: nat, links: Links, mode: Mode)
    requires k < |fish|
    ensures Strands(fish, links, mode, k) <==> Strands(fish, links, mode, k + 1) || Strander(fish, k, links, mode)
  {
    hide Strander;
  }

  /** A dead fish strands the fish skipped before it. */
  lemma StranderExactly(fish: seq<Fish>, k: nat, links: Links, mode: Mode)
    requires k < |fish|
    ensures Strander(fish, k, links, mode) <==>
      fish[k].state == DEAD && Anchored(fish, k, links, mode) && k > 0 && Leaves(fish, k - 1, links, mode)
  {
    hide Leaves, Anchored;
    if k > 0 {
      AnchoredNext(fish, k - 1, links, mode);
    }
  }

  /** What the pass sees of fish `k` is what the condition says of it. */
  lemma LeavesHere(fish: seq<Fish>, k: nat, links: Links, mode: Mode)
    requires k < |fish|
    ensures var (f, l) := TimedOut(fish[k], LinksAt(fish[..k], links, mode.ticks), mode.ticks);
      && LinksAt(fish[..k + 1], links, mode.ticks) == l
      && (Leaves(fish, k, links, mode) <==> f.state == LIVE && Crossed(f, l, mode).1)
      && (fish[k].state == DEAD ==> f.state == DEAD && LinksAt(fish[..k], links, mode.ticks) == l)
  {
    hide Exit, Bounced, Offered;
    assert fish[..k + 1][..k] == fish[..k];
  }

  /** The pass at position `k` of the list, its links and both parts of what it has seen as they then are. */
  lemma {:induction false} OrphansFrom(fish: seq<Fish>, k: nat, kept: seq<Fish>, skipped: seq<Fish>, links: Links,
      mode: Mode)
    requires k <= |fish|
    requires skipped != [] <==> k > 0 && Leaves(fish, k - 1, links, mode)
    requires kept != [] <==> Anchored(fish, k, links, mode)
    ensures Orphans(kept, skipped, fish[k..], LinksAt(fish[..k], links, mode.ticks), mode) <==>
      Strands(fish, links, mode, k)
    decreases |fish| - k
  {
    hide Crossed, TimedOut, LinksAt, Leaves, Anchored, Strander, Strands;
    if k == |fish| {
      NoneStrands(fish, links, mode);
      return;
    }
    assert fish[k..][0] == fish[k] && fish[k..][1..] == fish[k + 1..];
    LeavesHere(fish, k, links, mode);
    AnchoredNext(fish, k, links, mode);
    StrandsNext(fish, k, links, mode);
    StranderExactly(fish, k, links, mode);
    var (f, l) := TimedOut(fish[k], LinksAt(fish[..k], links, mode.ticks), mode.ticks);
    if fish[k].state == DEAD && kept != [] {
      OrphansFrom(fish, k + 1, kept, [], links, mode);
    } else if f.state != LIVE {
      OrphansFrom(fish, k + 1, kept + skipped + [f], [], links, mode);
    } else {
      var (g, skip) := Crossed(f, l, mode);
      if skip {
        OrphansFrom(fish, k + 1, kept, skipped + [g], links, mode);
      } else {
        OrphansFrom(fish, k + 1, kept + skipped + [g.(x := g.x + g.dx, y := g.y + g.dy)], [], links, mode);
      }
    }
  }

  lemma NoLinksCut(fish: seq<Fish>, links: Links, mode: Mode)
    ensures fish[0..] == fish && LinksAt(fish[..0], links, mode.ticks) == links
  {
  }

  lemma NoneStrands(fish: seq<Fish>, links: Links, mode: Mode)
    ensures !Strands(fish, links, mode, |fish|)
  {
  }

  /**
   * A pass loses fish exactly when a dead fish comes right behind one that leaves in this frame, and any that
   * does not leave comes before both.
   */
  lemma LossExactly(fish: seq<Fish>, links: Links, mode: Mode)
    ensures var after := Alive(Swept([], [], fish, links, mode).0);
            after <= Alive(fish) && (after == Alive(fish) <==> !Strands(fish, links, mode, 0))
  {
    hide Swept, Alive, Leaves, Strands, Orphans, LinksAt;
    NoFish([]);
    SweptAlive([], [], fish, links, mode);
    OrphansFrom(fish, 0, [], [], links, mode);
    NoLinksCut(fish, links, mode);
  }

  // ---- all tanks, and the packets that carry fish

  /** A SYNC packet on its way; the network may lose it but not double it. */
  datatype Sync = Sync(to: nat, token: nat, cargo: Cargo)

  datatype World = World(tanks: seq<seq<Fish>>, syncs: seq<Sync>, created: set<nat>)

  datatype Action =
    | Create(tank: nat, fish: Fish)
    | Frame(tank: nat, links: Links, mode: Mode)
    | GetAck(tank: nat, uid: Uid, from: nat) // of a current offer or of an old one, repeated or not
    | GetSync(k: nat, uid: Uid)
    | LoseSync(k: nat)

  ghost function InTanks(tanks: seq<seq<Fish>>): multiset<nat> {
    if tanks == [] then multiset{} else InTanks(tanks[..|tanks| - 1]) + Alive(tanks[|tanks| - 1])
  }

  ghost function InFlight(syncs: seq<Sync>): multiset<nat> {
    if syncs == [] then multiset{} else InFlight(syncs[..|syncs| - 1]) + Carried(syncs[|syncs| - 1])
  }

  ghost function Carried(p: Sync): multiset<nat> {
    multiset{p.token}
  }

  /** Every fish there is: alive or on offer in a tank, or in a packet. */
  ghost function All(w: World): multiset<nat> {
    InTanks(w.tanks) + InFlight(w.syncs)
  }

  function Arrived(p: Sync, uid: Uid): Fish {
    Fish(p.token, p.cargo.x, p.cargo.y, p.cargo.dx, p.cargo.dy, LIVE, 0, uid, p.cargo, 0)
  }

  ghost predicate Enabled(w: World, a: Action) {
    match a
    case Create(t, f) => t < |w.tanks| && f.token !in w.created && f.state == LIVE
    case Frame(t, _, _) => t < |w.tanks|
    case GetAck(t, _, _) => t < |w.tanks|
    case GetSync(k, _) => k < |w.syncs|
    case LoseSync(k) => k < |w.syncs|
  }

  function Removed(syncs: seq<Sync>, k: nat): seq<Sync>
    requires k < |syncs|
  {
    syncs[..k] + syncs[k + 1..]
  }

  function After(w: World, a: Action): World
    requires Enabled(w, a)
  {
    match a
    case Create(t, f) => w.(tanks := w.tanks[t := [f] + w.tanks[t]], created := w.created + {f.token})
    case Frame(t, links, mode) => w.(tanks := w.tanks[t := Swept([], [], w.tanks[t], links, mode).0])
    case GetAck(t, uid, from) =>
      var i := FirstOffer(w.tanks[t], uid);
      if i == |w.tanks[t]| then w
      else w.(tanks := w.tanks[t := Acked(w.tanks[t], uid)],
              syncs := w.syncs + [Sync(from, w.tanks[t][i].token, w.tanks[t][i].cargo)])
    case GetSync(k, uid) =>
      var p := w.syncs[k];
      var rest := w.(syncs := Removed(w.syncs, k));
      if p.to < |w.tanks| then rest.(tanks := w.tanks[p.to := [Arrived(p, uid)] + w.tanks[p.to]]) else rest
    case LoseSync(k) => w.(syncs := Removed(w.syncs, k))
  }

  lemma AddBoth(x: multiset<nat>, y: multiset<nat>, a: multiset<nat>, b: multiset<nat>, c: multiset<nat>)
    requires x + a == y + b
    ensures x + c + a == y + c + b
  {
    assert x + c + a == x + a + c;
    assert y + c + b == y + b + c;
  }

  lemma {:induction false} TankUpdate(tanks: seq<seq<Fish>>, t: nat, fish: seq<Fish>)
    requires t < |tanks|
    ensures InTanks(tanks[t := fish]) + Alive(tanks[t]) == InTanks(tanks) + Alive(fish)
  {
    hide Alive;
    var l := |tanks| - 1;
    if t == l {
      assert tanks[t := fish][..l] == tanks[..l];
    } else {
      TankUpdate(tanks[..l], t, fish);
      assert tanks[t := fish][..l] == tanks[..l][t := fish];
      assert tanks[t := fish][l] == tanks[l] && tanks[..l][t] == tanks[t];
      AddBoth(InTanks(tanks[..l][t := fish]), InTanks(tanks[..l]), Alive(tanks[t]), Alive(fish), Alive(tanks[l]));
    }
  }

  lemma {:induction false} InFlightConcat(a: seq<Sync>, b: seq<Sync>)
    ensures InFlight(a + b) == InFlight(a) + InFlight(b)
    decreases |b|
  {
    hide Carried;
    if b == [] {
      assert a + b == a;
    } else {
      var l := |b| - 1;
      InFlightConcat(a, b[..l]);
      assert (a + b)[|a + b| - 1] == b[l];
      assert (a + b)[..|a + b| - 1] == a + b[..l];
    }
  }

  lemma SyncRemoved(syncs: seq<Sync>, k: nat)
    requires k < |syncs|
    ensures InFlight(syncs) == InFlight(Removed(syncs, k)) + multiset{syncs[k].token}
  {
    hide InFlight;
    var a, b := syncs[..k], syncs[k + 1..];
    assert syncs == a + [syncs[k]] + b;
    InFlightConcat(a + [syncs[k]], b);
    SyncAdded(a, syncs[k]);
    InFlightConcat(a, b);
    LastInstead(InFlight(a), multiset{syncs[k].token}, InFlight(b));
  }

  lemma LastInstead(x: multiset<nat>, c: multiset<nat>, y: multiset<nat>)
    ensures x + c + y == x + y + c
  {
  }

  lemma SyncAdded(syncs: seq<Sync>, p: Sync)
    ensures InFlight(syncs + [p]) == InFlight(syncs) + multiset{p.token}
  {
    assert (syncs + [p])[..|syncs|] == syncs;
  }

  lemma FishAdded(fish: seq<Fish>, f: Fish)
    requires f.state != DEAD
    ensures Alive([f] + fish) == Alive(fish) + multiset{f.token}
  {
    AliveConcat([f], fish);
    AliveOne(f);
  }

  lemma Moved(x: multiset<nat>, y: multiset<nat>, a: multiset<nat>, b: multiset<nat>, c: multiset<nat>)
    requires x + a == y + b && a == b + c
    ensures x + c == y
  {
    assert forall t :: x[t] + a[t] == (x + a)[t] == y[t] + b[t];
  }

  lemma Cancel(x: multiset<nat>, y: multiset<nat>, a: multiset<nat>, b: multiset<nat>)
    requires x + a == y + b && b <= a
    ensures x <= y
  {
    assert forall t :: x[t] + a[t] == (x + a)[t] == y[t] + b[t];
  }

  lemma CreateKeeps(w: World, t: nat, f: Fish)
    requires Enabled(w, Create(t, f))
    ensures All(After(w, Create(t, f))) == All(w) + multiset{f.token}
  {
    hide Alive, InTanks, InFlight;
    var u := After(w, Create(t, f));
    TankUpdate(w.tanks, t, [f] + w.tanks[t]);
    FishAdded(w.tanks[t], f);
    Moved(InTanks(w.tanks), InTanks(u.tanks), Alive([f] + w.tanks[t]), Alive(w.tanks[t]), multiset{f.token});
    assert InTanks(w.tanks) + multiset{f.token} + InFlight(w.syncs) ==
      InTanks(w.tanks) + InFlight(w.syncs) + multiset{f.token};
  }

  lemma FrameKeeps(w: World, t: nat, links: Links, mode: Mode)
    requires Enabled(w, Frame(t, links, mode))
    ensures All(After(w, Frame(t, links, mode))) <= All(w)
  {
    hide Alive, Swept, InTanks, InFlight;
    var u := After(w, Frame(t, links, mode));
    TankUpdate(w.tanks, t, u.tanks[t]);
    SweptAlive([], [], w.tanks[t], links, mode);
    NoFish([]);
    Cancel(InTanks(u.tanks), InTanks(w.tanks), Alive(w.tanks[t]), Alive(u.tanks[t]));
  }

  lemma AckKeeps(w: World, t: nat, uid: Uid, from: nat)
    requires Enabled(w, GetAck(t, uid, from))
    ensures All(After(w, GetAck(t, uid, from))) == All(w)
  {
    hide Alive, Acked, FirstOffer, InTanks, InFlight;
    var i := FirstOffer(w.tanks[t], uid);
    if i < |w.tanks[t]| {
      var u := After(w, GetAck(t, uid, from));
      var c := multiset{w.tanks[t][i].token};
      TankUpdate(w.tanks, t, Acked(w.tanks[t], uid));
      AckedAlive(w.tanks[t], uid);
      SyncAdded(w.syncs, Sync(from, w.tanks[t][i].token, w.tanks[t][i].cargo));
      Moved(InTanks(u.tanks), InTanks(w.tanks), Alive(w.tanks[t]), Alive(Acked(w.tanks[t], uid)), c);
      assert InTanks(u.tanks) + (InFlight(w.syncs) + c) == InTanks(u.tanks) + c + InFlight(w.syncs);
    }
  }

  /** A packet that arrives carries its fish over; one for no tank here carries it off. */
  lemma SyncKeeps(w: World, k: nat, uid: Uid)
    requires Enabled(w, GetSync(k, uid))
    ensures if w.syncs[k].to < |w.tanks| then All(After(w, GetSync(k, uid))) == All(w)
      else All(After(w, GetSync(k, uid))) <= All(w)
  {
    hide Alive, InTanks, InFlight, Removed;
    var u := After(w, GetSync(k, uid));
    var p := w.syncs[k];
    var c := multiset{p.token};
    SyncRemoved(w.syncs, k);
    if p.to < |w.tanks| {
      var fish := [Arrived(p, uid)] + w.tanks[p.to];
      TankUpdate(w.tanks, p.to, fish);
      FishAdded(w.tanks[p.to], Arrived(p, uid));
      Moved(InTanks(w.tanks), InTanks(u.tanks), Alive(fish), Alive(w.tanks[p.to]), c);
      assert InTanks(w.tanks) + c + InFlight(u.syncs) == InTanks(w.tanks) + (InFlight(u.syncs) + c);
    }
  }

  lemma LossKeeps(w: World, k: nat)
    requires Enabled(w, LoseSync(k))
    ensures All(After(w, LoseSync(k))) <= All(w)
  {
    SyncRemoved(w.syncs, k);
  }

  /** Nothing but local creation adds a fish. */
  lemma NoNewFish(w: World, a: Action)
    requires Enabled(w, a)
    ensures All(After(w, a)) <= All(w) + if a.Create? then multiset{a.fish.token} else multiset{}
  {
    hide All, After;
    match a {
      case Create(t, f) => CreateKeeps(w, t, f);
      case Frame(t, links, mode) => FrameKeeps(w, t, links, mode);
      case GetAck(t, uid, from) => AckKeeps(w, t, uid, from);
      case GetSync(k, uid) => SyncKeeps(w, k, uid);
      case LoseSync(k) => LossKeeps(w, k);
    }
  }

  lemma ReachNext(start: World, actions: seq<Action>, w: World, a: Action)
    requires Reaches(start, actions, w) && Enabled(w, a)
    ensures Reaches(start, actions + [a], After(w, a))
  {
    hide After, Enabled;
    assert (actions + [a])[..|actions|] == actions;
  }

  ghost predicate Reaches(start: World, actions: seq<Action>, w: World) {
    if actions == [] then w == start
    else
      var last := |actions| - 1;
      exists before {:trigger Reaches(start, actions[..last], before)} ::
        Reaches(start, actions[..last], before) && Enabled(before, actions[last]) && w == After(before, actions[last])
  }

  lemma ReachStart(start: World)
    ensures Reaches(start, [], start)
  {
  }

  /** A fish that stays, and one that does or that leaves. */
  lemma SweptTwo(stays: Fish, f: Fish, links: Links, mode: Mode)
    requires stays.state == LIVE && Exit(stays, links).0 == 4 && f.state == LIVE
    ensures Swept([], [], [stays, f], links, mode).0 ==
      [Swum(stays, links, mode), if Exit(f, links).0 == 4 then Swum(f, links, mode) else Crossed(f, links, mode).0]
  {
    hide Exit, Bounced, Offered, Swum;
    assert [stays, f][1..] == [f] && [f][1..] == [];
    var kept := [] + [] + [Swum(stays, links, mode)];
    SwumIs(stays, links, mode);
    assert Swept([], [], [stays, f], links, mode) == Swept(kept, [], [f], links, mode);
    if Exit(f, links).0 == 4 {
      SwumIs(f, links, mode);
      assert Swept(kept, [], [f], links, mode) == Swept(kept + [] + [Swum(f, links, mode)], [], [], links, mode);
    } else {
      assert Swept(kept, [], [f], links, mode) == Swept(kept, [] + [Crossed(f, links, mode).0], [], links, mode);
    }
  }

  lemma SwumIs(f: Fish, links: Links, mode: Mode)
    ensures var g := Crossed(f, links, mode).0; Swum(f, links, mode) == g.(x := g.x + g.dx, y := g.y + g.dy)
  {
    hide Crossed;
  }

  /** A fish that stays, one that leaves, and a dead one. */
  lemma SweptThree(stays: Fish, leaves: Fish, dead: Fish, links: Links, mode: Mode)
    requires stays.state == LIVE && Exit(stays, links).0 == 4 && leaves.state == LIVE && Exit(leaves, links).0 != 4
      && dead.state == DEAD
    ensures Swept([], [], [stays, leaves, dead], links, mode).0 == [Swum(stays, links, mode)]
  {
    hide Exit, Bounced, Offered;
    assert [stays, leaves, dead][1..] == [leaves, dead] && [leaves, dead][1..] == [dead] && [dead][1..] == [];
    var g := Crossed(stays, links, mode).0;
    var kept := [] + [] + [g.(x := g.x + g.dx, y := g.y + g.dy)];
    var left := [] + [Crossed(leaves, links, mode).0];
    assert Swept([], [], [stays, leaves, dead], links, mode) == Swept(kept, [], [leaves, dead], links, mode);
    assert Swept(kept, [], [leaves, dead], links, mode) == Swept(kept, left, [dead], links, mode);
    assert Swept(kept, left, [dead], links, mode) == Swept(kept, [], [], links, mode);
    assert kept + [] == [g.(x := g.x + g.dx, y := g.y + g.dy)];
  }

  lemma OneTank(f: Fish, p: Sync, created: set<nat>)
    requires f.state != DEAD
    ensures All(World([[f]], [p], created)) == multiset{f.token, p.token}
  {
    hide Alive;
    assert [[f]][..0] == [] && [p][..0] == [];
    assert InTanks([[f]]) == InTanks([]) + Alive([f]);
    assert InFlight([p]) == InFlight([]) + Carried(p);
    AliveOne(f);
  }

  lemma CreateOne(fish: seq<Fish>, syncs: seq<Sync>, created: set<nat>, f: Fish)
    requires f.token !in created && f.state == LIVE
    ensures After(World([fish], syncs, created), Create(0, f)) == World([[f] + fish], syncs, created + {f.token})
  {
  }

  lemma FrameOne(fish: seq<Fish>, syncs: seq<Sync>, created: set<nat>, links: Links, mode: Mode)
    ensures After(World([fish], syncs, created), Frame(0, links, mode)) ==
      World([Swept([], [], fish, links, mode).0], syncs, created)
  {
    hide Swept;
  }

  lemma AckSecond(e: Fish, f: Fish, created: set<nat>, from: nat)
    requires e.state == LIVE && f.state == XMIT
    ensures After(World([[e, f]], [], created), GetAck(0, f.uid, from))
         == World([[e, f.(state := DEAD)]], [Sync(from, f.token, f.cargo)], created)
  {
    assert [e, f][1..] == [f] && FirstOffer([f], f.uid) == 0 && FirstOffer([e, f], f.uid) == 1;
    assert Acked([e, f], f.uid) == [e, f.(state := DEAD)];
    assert [] + [Sync(from, f.token, f.cargo)] == [Sync(from, f.token, f.cargo)];
  }

  /** A fish of tank 0 as it is made. */
  function Made(token: nat, x: int): Fish {
    Fish(token, x, 100, 10, 1, LIVE, 0, Uid(0, 0, 0x100_0000), Cargo(0, 0, 0, 0), 0)
  }

  /** No packet is lost, and fish are made inside their tank. */
  predicate Peaceful(a: Action) {
    && !a.LoseSync?
    && (a.Create? ==> 0 <= a.fish.x <= 255 && 0 <= a.fish.y <= 255)
  }

  /**
   * A run that loses a fish without the loss of a packet: fish 3 and, a frame later, fish 2 swim to the right side of
   * their tank; fish 3 leaves and is acknowledged, fish 1 is made, and in the frame in which fish 2 leaves it is
   * unlinked together with what is left of fish 3.
   */
  lemma LossReached() returns (actions: seq<Action>, w: World)
    ensures Reaches(World([[]], [], {}), actions, w)
    ensures w.created == {1, 2, 3} && All(w) == multiset{1, 3}
    ensures forall k :: 0 <= k < |actions| ==> Peaceful(actions[k])
  {
    hide Reaches, Swept, After, Crossed, All, Swum;
    var links: Links := [false, false, false, true];
    CrossingExample(links);
    var w0 := World([[]], [], {});
    actions, w := OneLeaves(links);
    var h2, dead := w.tanks[0][0], w.tanks[0][1];
    var f1 := Made(1, 50);
    CreateOne([h2, dead], w.syncs, w.created, f1);
    w := Onward(w0, actions, w, Create(0, f1));
    actions := actions + [Create(0, f1)];
    assert [f1] + [h2, dead] == [f1, h2, dead];
    FrameOne([f1, h2, dead], w.syncs, w.created, links, Frames(3));
    SweptThree(f1, h2, dead, links, Frames(3));
    w := Onward(w0, actions, w, Frame(0, links, Frames(3)));
    actions := actions + [Frame(0, links, Frames(3))];
    OneTank(Swum(f1, links, Frames(3)), w.syncs[0], w.created);
  }

  /** The run as far as the acknowledgement of fish 3. */
  lemma OneLeaves(links: Links) returns (actions: seq<Action>, w: World)
    requires links == [false, false, false, true]
    ensures Reaches(World([[]], [], {}), actions, w)
    ensures forall k :: 0 <= k < |actions| ==> Peaceful(actions[k])
    ensures var g2, g3 := Swum(Made(2, 240), links, Frames(1)), Swum(Made(3, 250), links, Frames(1));
            var gone := Crossed(g3, links, Frames(2)).0;
            w == World([[Swum(g2, links, Frames(2)), gone.(state := DEAD)]], [Sync(1, 3, gone.cargo)], {2, 3})
  {
    hide Reaches, Swept, After, Crossed, Swum;
    CrossingExample(links);
    var f2, f3 := Made(2, 240), Made(3, 250);
    var w0 := World([[]], [], {});
    actions, w := TwoMade(f2, f3);
    FrameOne([f2, f3], [], {2, 3}, links, Frames(1));
    SweptTwo(f2, f3, links, Frames(1));
    w := Onward(w0, actions, w, Frame(0, links, Frames(1)));
    actions := actions + [Frame(0, links, Frames(1))];
    var g2, g3 := Swum(f2, links, Frames(1)), Swum(f3, links, Frames(1));
    FrameOne([g2, g3], [], {2, 3}, links, Frames(2));
    SweptTwo(g2, g3, links, Frames(2));
    w := Onward(w0, actions, w, Frame(0, links, Frames(2)));
    actions := actions + [Frame(0, links, Frames(2))];
    var gone := Crossed(g3, links, Frames(2)).0;
    AckSecond(Swum(g2, links, Frames(2)), gone, {2, 3}, 1);
    w := Onward(w0, actions, w, GetAck(0, gone.uid, 1));
    actions := actions + [GetAck(0, gone.uid, 1)];
  }

  lemma TwoMade(f: Fish, g: Fish) returns (actions: seq<Action>, w: World)
    requires f.state == g.state == LIVE && f.token != g.token
    ensures Reaches(World([[]], [], {}), actions, w) && actions == [Create(0, g), Create(0, f)]
    ensures w == World([[f, g]], [], {f.token, g.token})
  {
    hide Reaches, After;
    var w0 := World([[]], [], {});
    ReachStart(w0);
    CreateOne([], [], {}, g);
    w := Onward(w0, [], w0, Create(0, g));
    assert [] + [Create(0, g)] == [Create(0, g)];
    assert w == World([[g]], [], {g.token}) by { assert [g] + [] == [g]; }
    CreateOne([g], [], {g.token}, f);
    w := Onward(w0, [Create(0, g)], w, Create(0, f));
    assert [f] + [g] == [f, g];
    assert [Create(0, g)] + [Create(0, f)] == [Create(0, g), Create(0, f)];
    actions := [Create(0, g), Create(0, f)];
  }

  function Frames(ticks: int): Mode {
    Mode(ticks, false, false)
  }

  /** In tank 0 with its right neighbour there, the three fish swim on until the right side, where they leave. */
  lemma CrossingExample(links: Links)
    requires links == [false, false, false, true]
    ensures var f1, f2, f3 := Made(1, 50), Made(2, 240), Made(3, 250);
            var g2, g3 := Swum(f2, links, Frames(1)), Swum(f3, links, Frames(1));
            var h2, h3 := Swum(g2, links, Frames(2)), Crossed(g3, links, Frames(2)).0;
            && Exit(f1, links).0 == Exit(f2, links).0 == Exit(f3, links).0 == Exit(g2, links).0 == 4
            && Exit(g3, links).0 != 4 && Exit(h2, links).0 != 4
            && g2.state == g3.state == h2.state == LIVE && h3.state == XMIT && h3.token == 3
            && Swum(f1, links, Frames(3)).state == LIVE && Swum(f1, links, Frames(3)).token == 1
  {
  }

  lemma Onward(start: World, actions: seq<Action>, w: World, a: Action) returns (u: World)
    requires Reaches(start, actions, w) && Enabled(w, a)
    ensures u == After(w, a) && Reaches(start, actions + [a], u)
  {
    hide Enabled, After;
    ReachNext(start, actions, w, a);
    u := After(w, a);
  }

  /** Over every run, the fish there are were created, each once. */
  lemma {:induction false} FishAreCreated(n: nat, actions: seq<Action>, w: World)
    requires Reaches(World(seq(n, i => []), [], {}), actions, w)
    ensures All(w) <= multiset(w.created)
    decreases |actions|
  {
    var start := World(seq(n, i => []), [], {});
    if actions == [] {
      EmptyTanks(start.tanks);
    } else {
      var last := |actions| - 1;
      var before :| Reaches(start, actions[..last], before) && Enabled(before, actions[last])
        && w == After(before, actions[last]);
      FishAreCreated(n, actions[..last], before);
      NoNewFish(before, actions[last]);
    }
  }

  lemma {:induction false} EmptyTanks(tanks: seq<seq<Fish>>)
    requires forall t :: 0 <= t < |tanks| ==> tanks[t] == []
    ensures InTanks(tanks) == multiset{}
  {
    if tanks != [] {
      EmptyTanks(tanks[..|tanks| - 1]);
      NoFish(tanks[|tanks| - 1]);
    }
  }

  /** No fish is ever in two places, and there are never more than were created. */
  lemma NeverDuplicated(n: nat, actions: seq<Action>, w: World, token: nat)
    requires Reaches(World(seq(n, i => []), [], {}), actions, w)
    ensures All(w)[token] <= 1
    ensures token !in w.created ==> token !in All(w)
    ensures |All(w)| <= |w.created|
  {
    FishAreCreated(n, actions, w);
    assert multiset(w.created)[token] <= 1;
    assert |multiset(w.created)| == |w.created|;
    Smaller(All(w), multiset(w.created));
  }

  lemma Smaller(a: multiset<nat>, b: multiset<nat>)
    requires a <= b
    ensures |a| <= |b|
  {
    assert b == a + (b - a);
  }

  // ---- one tank's program

  datatype Packet =
    | Offer(uid: Uid, cargo: Cargo, dest: nat)
    | Confirm(uid: Uid, from: nat, to: nat)
    | Transfer(sync: Sync)

  /** The numbers of the four tanks around one. */
  type Neighbours = n: seq<nat> | |n| == 4 witness [0, 0, 0, 0]

  /** The first link that leads to a tank, or 4. */
  function LinkTo(near: Neighbours, tank: nat): (i: nat)
    ensures i <= 4 && (forall j :: 0 <= j < i ==> near[j] != tank) && (i < 4 ==> near[i] == tank)
  {
    if near[0] == tank then 0
    else if near[1] == tank then 1
    else if near[2] == tank then 2
    else if near[3] == tank then 3
    else 4
  }

  class Tank {
    const near: Neighbours
    var fish: seq<Fish>
    var links: Links
    var ticks: int
    var sticky: bool
    var recluse: bool
    const me: nat

    constructor (me: nat, near: Neighbours)
      ensures fish == [] && ticks == 0 && this.me == me && this.near == near
    {
      fish, links, ticks, sticky, recluse := [], [false, false, false, false], 0, false, false;
      this.me, this.near := me, near;
    }

    /** A new fish goes to the head of the list. */
    method NewFish(token: nat, x: int, y: int, dx: int, dy: int)
      modifies this`fish
      ensures |fish| == |old(fish)| + 1 && fish[1..] == old(fish)
      ensures fish[0].token == token && fish[0].state == LIVE
      ensures fish[0].x == x && fish[0].y == y && fish[0].dx == dx && fish[0].dy == dy
      ensures fish[0].uid == Uid(me, me, 0x100_0000 + ticks)
    {
      var f := Fish(token, x, y, dx, dy, LIVE, 0, Uid(me, me, 0x100_0000 + ticks), Cargo(0, 0, 0, 0), 0);
      fish := [f] + fish;
    }

    /** An offer is accepted by a confirmation to where it came from, unless the tank wants no visitors. */
    method OnSend(from: nat, uid: Uid) returns (reply: Option<Packet>)
      ensures reply == if recluse then None else Some(Confirm(uid, me, from))
    {
      if recluse {
        return None;
      }
      return Some(Confirm(uid, me, from));
    }

    /** A confirmation sends off the first fish on offer under its name, to whoever confirmed. */
    method OnAck(from: nat, uid: Uid) returns (reply: Option<Packet>)
      modifies this`fish
      ensures fish == Acked(old(fish), uid)
      ensures var i := FirstOffer(old(fish), uid);
              reply == if i == |old(fish)| then None
                else Some(Transfer(Sync(from, old(fish)[i].token, old(fish)[i].cargo)))
    {
      var i := 0;
      while i < |fish|
        invariant 0 <= i <= |fish| && fish == old(fish)
        invariant FirstOffer(fish, uid) == i + FirstOffer(fish[i..], uid)
      {
        if fish[i].state == XMIT && fish[i].uid == uid {
          var f := fish[i];
          fish := fish[i := f.(state := DEAD)];
          return Some(Transfer(Sync(from, f.token, f.cargo)));
        }
        assert fish[i..][1..] == fish[i + 1..];
        i := i + 1;
      }
      return None;
    }

    /** A tank is there, or not: the first link that leads to it says so. */
    method SetTank(tank: nat, live: bool)
      modifies this`links
      ensures links == if LinkTo(near, tank) < 4 then old(links)[LinkTo(near, tank) := live] else old(links)
    {
      var i := 0;
      while i < 4
        invariant 0 <= i <= 4 && links == old(links)
        invariant forall j :: 0 <= j < i ==> near[j] != tank
      {
        if near[i] == tank {
          links := links[i := live];
          return;
        }
        i := i + 1;
      }
    }

    /** The last packet makes the fish anew, and shows that its sender is there. */
    method OnSync(from: nat, p: Sync)
      modifies this`fish, this`links
      ensures |fish| == |old(fish)| + 1 && fish[1..] == old(fish) && fish[0].token == p.token && fish[0].state == LIVE
      ensures fish[0].x == p.cargo.x && fish[0].y == p.cargo.y && fish[0].dx == p.cargo.dx && fish[0].dy == p.cargo.dy
      ensures LinkTo(near, from) < 4 ==> links == old(links)[LinkTo(near, from) := true]
      ensures LinkTo(near, from) == 4 ==> links == old(links)
    {
      NewFish(p.token, p.cargo.x, p.cargo.y, p.cargo.dx, p.cargo.dy);
      SetTank(from, true);
    }

    /**
     * One frame: every 200 ticks ask whether the tanks around are there, and take them for gone until they answer;
     * expire the dead, withdraw late offers, move the others and offer those that leave.
     */
    method Frame()
      modifies this`fish, this`links, this`ticks
      ensures ticks == old(ticks) + 1
      ensures Alive(fish) <= Alive(old(fish))
      ensures forall i :: 0 <= i < 4 && links[i] ==> ticks % 200 != 0 && old(links)[i]
      ensures var there: Links := if ticks % 200 == 0 then [false, false, false, false] else old(links);
              var mode := Mode(ticks, sticky, recluse);
              && (fish, links) == Swept([], [], old(fish), there, mode)
              && (Alive(fish) == Alive(old(fish)) <==> !Strands(old(fish), there, mode, 0))
    {
      hide Alive, Strands, Crossed, TimedOut;
      ticks := ticks + 1;
      if ticks % 200 == 0 {
        links := [false, false, false, false];
      }
      ghost var before := links;
      var mode := Mode(ticks, sticky, recluse);
      LossExactly(fish, links, mode);
      var kept, skipped, rest: seq<Fish> := [], [], fish;
      while rest != []
        invariant Swept(kept, skipped, rest, links, mode) == Swept([], [], old(fish), before, mode)
        invariant fish == old(fish) && ticks == old(ticks) + 1
        invariant forall i :: 0 <= i < 4 && links[i] ==> before[i]
        decreases |rest|
      {
        var f := rest[0];
        if f.state == DEAD && kept != [] {
          skipped := [];
        } else {
          var (g, l) := TimedOut(f, links, mode.ticks);
          TimedOutExactly(f, links, mode.ticks);
          links := l;
          if g.state != LIVE {
            kept, skipped := kept + skipped + [g], [];
          } else {
            var (h, skip) := Crossed(g, links, mode);
            if skip {
              skipped := skipped + [h];
            } else {
              kept, skipped := kept + skipped + [h.(x := h.x + h.dx, y := h.y + h.dy)], [];
            }
          }
        }
        rest := rest[1..];
      }
      fish := kept + skipped;
    }
  }
}
