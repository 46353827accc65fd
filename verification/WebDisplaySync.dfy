/** What the messages do over any run: the page follows the server's shadow, the shadow follows the memory, within a
    budget, and no line waits for ever. */
module WebDisplaySync {
  import opened Words
  import opened Grids
  import opened PixelCode
  import opened WebDisplay

  // ---- The bands are the stale lines ----

  lemma {:induction false} BandsGood(s: Shadow, m: Picture, i: nat, j: nat)
    requires ValidShadow(s) && ValidPicture(m) && i <= LINES && j < |Bands(s, m, i)|
    ensures IsBand(s, m, Bands(s, m, i)[j]) && i <= Bands(s, m, i)[j].i
    decreases LINES - i
  {
    hide X0, X1, Stale, LineAt;
    if !Stale(s, m, LineAt(s.nextLine, i)) {
      BandsGood(s, m, i + 1, j);
    } else if j > 0 {
      BandsGood(s, m, i + BandAt(s, m, i).rect.height, j - 1);
    }
  }

  lemma {:induction false} BandsOrdered(s: Shadow, m: Picture, i: nat, a: nat, b: nat)
    requires ValidShadow(s) && ValidPicture(m) && i <= LINES && a < b < |Bands(s, m, i)|
    ensures var bands := Bands(s, m, i); bands[a].i + bands[a].rect.height <= bands[b].i
    decreases LINES - i
  {
    if !Stale(s, m, LineAt(s.nextLine, i)) {
      BandsOrdered(s, m, i + 1, a, b);
    } else {
      var next := i + BandAt(s, m, i).rect.height;
      if a > 0 {
        BandsOrdered(s, m, next, a - 1, b - 1);
      } else {
        BandsGood(s, m, next, b - 1);
      }
    }
  }

  /** Every stale line is in a band, found no later than the line. */
  lemma {:induction false} BandsCover(s: Shadow, m: Picture, i: nat, j: nat) returns (b: nat)
    requires ValidShadow(s) && ValidPicture(m) && i <= j < LINES && Stale(s, m, LineAt(s.nextLine, j))
    ensures b < |Bands(s, m, i)| && Bands(s, m, i)[b].i <= j && Within(Bands(s, m, i)[b].rect, LineAt(s.nextLine, j))
    decreases LINES - i
  {
    if !Stale(s, m, LineAt(s.nextLine, i)) {
      b := BandsCover(s, m, i + 1, j);
    } else {
      var first := BandAt(s, m, i);
      var next := i + first.rect.height;
      if j < next {
        b := 0;
        assert Within(first.rect, LineAt(s.nextLine, j));
      } else {
        var rest := Bands(s, m, next);
        var c := BandsCover(s, m, next, j);
        b := c + 1;
        assert Bands(s, m, i)[b] == rest[c];
      }
    }
  }

  // ---- A line after some of the bands are put in ----

  /** The line is in one of the first k bands. */
  ghost predicate Covered(bands: seq<Band>, k: nat, l: nat)
    requires k <= |bands|
  {
    exists j :: 0 <= j < k && Within(bands[j].rect, l)
  }

  /** Bands apart in the order they are met are apart on the display. */
  lemma BandsApart(s: Shadow, m: Picture, a: nat, b: nat, l: nat)
    requires ValidShadow(s) && ValidPicture(m) && a < b < |Bands(s, m, 0)|
    ensures !(Within(Bands(s, m, 0)[a].rect, l) && Within(Bands(s, m, 0)[b].rect, l))
  {
    var bands := Bands(s, m, 0);
    BandsGood(s, m, 0, a);
    BandsGood(s, m, 0, b);
    BandsOrdered(s, m, 0, a, b);
    GoodBandsApart(s.nextLine, bands[a], bands[b], l);
  }

  lemma GoodBandsApart(next: nat, a: Band, b: Band, l: nat)
    requires next < LINES && a.i + a.rect.height <= b.i && b.i + b.rect.height <= LINES
    requires a.i < LINES && b.i < LINES && a.rect.line == LineAt(next, a.i) && b.rect.line == LineAt(next, b.i)
    requires a.rect.line + a.rect.height <= LINES && b.rect.line + b.rect.height <= LINES
    ensures !(Within(a.rect, l) && Within(b.rect, l))
  {
  }

  /** Put into a row that agrees with what the page has, a band's part of the memory makes the row the memory's. */
  lemma RowPatched(s: Shadow, m: Picture, b: Band, l: nat, row: seq<word>)
    requires ValidShadow(s) && ValidPicture(m) && IsBand(s, m, b) && Within(b.rect, l) && |row| == WIDTH
    requires s.known[l] ==> row == s.pixels[l]
    ensures var x, x1 := b.rect.x, b.rect.x + b.rect.width; row[..x] + m[l][x..x1] + row[x1..] == m[l]
  {
    var x, x1 := b.rect.x, b.rect.x + b.rect.width;
    assert Stale(s, m, l);
    assert x <= X0(s, m, l) && X1(s, m, l) <= x1;
    if s.known[l] {
      SameOutside(m[l], row, X0(s, m, l), X1(s, m, l), x, x1);
    }
  }

  lemma SameOutside(a: seq<word>, b: seq<word>, d: nat, e: nat, x: nat, x1: nat)
    requires |a| == |b| == WIDTH && x <= d <= WIDTH && e <= x1 <= WIDTH && x <= x1
    requires a[0..d] == b[0..d] && a[e..WIDTH] == b[e..WIDTH]
    ensures b[..x] + a[x..x1] + b[x1..] == a
  {
    forall k | 0 <= k < WIDTH ensures (b[..x] + a[x..x1] + b[x1..])[k] == a[k] {
      if k < x {
        assert a[0..d][k] == b[0..d][k];
      } else if k >= x1 {
        assert a[e..WIDTH][k - e] == b[e..WIDTH][k - e];
      }
    }
  }

  lemma PatchesPrefix(m: Picture, bands: seq<Band>, k: nat)
    requires ValidPicture(m) && 0 < k <= |bands|
    ensures Patches(m, bands[..k])[..k - 1] == Patches(m, bands[..k - 1])
  {
  }

  /** The last of k bands put into a picture that has the bands before it. */
  lemma BandPatched(s: Shadow, m: Picture, p: Picture, before: Picture, k: nat, l: nat)
    requires ValidShadow(s) && ValidPicture(m) && ValidPicture(before) && ValidPicture(p)
    requires k < |Bands(s, m, 0)| && l < LINES
    requires s.known[l] ==> p[l] == s.pixels[l]
    requires var bands := Bands(s, m, 0); before[l] == if Covered(bands, k, l) then m[l] else p[l]
    ensures var bands := Bands(s, m, 0);
      PutPatch(before, Carried(m, bands[k].rect))[l] == if Within(bands[k].rect, l) then m[l] else before[l]
  {
    hide Bands, IsBand, PutRows, RowsOf, Area;
    var bands := Bands(s, m, 0);
    var b := bands[k];
    PutRowsAt(before, m, b.rect.line, b.rect.height, b.rect.x, b.rect.width, l);
    if Within(b.rect, l) {
      BandsGood(s, m, 0, k);
      forall j | 0 <= j < k ensures !Within(bands[j].rect, l) {
        BandsApart(s, m, j, k, l);
      }
      RowPatched(s, m, b, l, before[l]);
    }
  }

  /** A line of p once the first k bands are put in: the memory's if it is in one of them, else its own. */
  ghost predicate LinePatched(s: Shadow, m: Picture, p: Picture, k: nat, l: nat)
    requires ValidShadow(s) && ValidPicture(m) && ValidPicture(p) && k <= |Bands(s, m, 0)| && l < LINES
  {
    var bands := Bands(s, m, 0);
    PutPatches(p, Patches(m, bands[..k]))[l] == if Covered(bands, k, l) then m[l] else p[l]
  }

  lemma NextPatched(s: Shadow, m: Picture, p: Picture, k: nat, l: nat)
    requires ValidShadow(s) && ValidPicture(m) && ValidPicture(p) && k < |Bands(s, m, 0)| && l < LINES
    requires s.known[l] ==> p[l] == s.pixels[l]
    requires LinePatched(s, m, p, k, l)
    ensures LinePatched(s, m, p, k + 1, l)
  {
    hide Bands, IsBand, PutPatch, RowsOf, Stale;
    var bands := Bands(s, m, 0);
    var before := PutPatches(p, Patches(m, bands[..k]));
    BandPatched(s, m, p, before, k, l);
    PutLast(m, p, bands, k + 1);
    assert Covered(bands, k + 1, l) == (Covered(bands, k, l) || Within(bands[k].rect, l));
  }

  /** p, a picture that agrees with the shadow on the lines the page has, has the memory's line once the line's band
      is put in, and its own until then. */
  lemma {:induction false} PatchedLine(s: Shadow, m: Picture, p: Picture, k: nat, l: nat)
    requires ValidShadow(s) && ValidPicture(m) && ValidPicture(p) && k <= |Bands(s, m, 0)| && l < LINES
    requires s.known[l] ==> p[l] == s.pixels[l]
    ensures LinePatched(s, m, p, k, l)
  {
    if k == 0 {
      assert Patches(m, Bands(s, m, 0)[..k]) == [];
    } else {
      PatchedLine(s, m, p, k - 1, l);
      NextPatched(s, m, p, k - 1, l);
    }
  }

  lemma PutLast(m: Picture, p: Picture, bands: seq<Band>, k: nat)
    requires ValidPicture(m) && ValidPicture(p) && 0 < k <= |bands|
    ensures PutPatches(p, Patches(m, bands[..k])) ==
      PutPatch(PutPatches(p, Patches(m, bands[..k - 1])), Carried(m, bands[k - 1].rect))
  {
    PatchesPrefix(m, bands, k);
  }

  // ---- The page has what the shadow says ----

  /** On every line the server says the page has, the page has the shadow's pixels. */
  ghost predicate PageHas(page: Picture, s: Shadow) {
    ValidPicture(page) && ValidShadow(s) && forall l :: 0 <= l < LINES && s.known[l] ==> page[l] == s.pixels[l]
  }

  /** What a page does with a message: nothing with an empty one. */
  ghost function PageAfter(page: Picture, message: seq<byte>): (r: Picture)
    requires ValidPicture(page)
    ensures ValidPicture(r)
  {
    if message == [] then page
    else
      match ReadMessage(message)
      case None => page
      case Some(patches) => PutPatches(page, patches)
  }

  /** The message reads back as rectangles, each with the memory's pixels. */
  lemma MessageCarriesMemory(s: Shadow, m: Picture, budget: int)
    requires ValidShadow(s) && ValidPicture(m) && Encode(s, m, budget).message != []
    ensures ReadMessage(Encode(s, m, budget).message) ==
      Some(Patches(m, Bands(s, m, 0)[..SentCount(s, m, budget)]))
  {
    MessageReads(Patches(m, Bands(s, m, 0)[..SentCount(s, m, budget)]));
  }

  lemma PageFollows(page: Picture, s: Shadow, m: Picture, budget: int)
    requires PageHas(page, s) && ValidPicture(m)
    ensures var r := Encode(s, m, budget); PageHas(PageAfter(page, r.message), r.shadow)
  {
    hide Bands, Stale, ReadMessage, PutPatches;
    var r, bands, k := Encode(s, m, budget), Bands(s, m, 0), SentCount(s, m, budget);
    if k > 0 {
      MessageCarriesMemory(s, m, budget);
    } else {
      assert Patches(m, bands[..0]) == [];
    }
    forall l | 0 <= l < LINES && r.shadow.known[l] ensures PageAfter(page, r.message)[l] == r.shadow.pixels[l] {
      PatchedLine(s, m, page, k, l);
      PatchedLine(s, m, s.pixels, k, l);
    }
  }

  /** A look at the memory, and how much may go. */
  datatype Snapshot = Snapshot(m: Picture, budget: int)

  ghost predicate ValidSnapshots(snaps: seq<Snapshot>) {
    forall i :: 0 <= i < |snaps| ==> ValidPicture(snaps[i].m)
  }

  datatype Ends = Ends(page: Picture, shadow: Shadow)

  /** A page, from new, and its server, after a message for each snapshot. */
  ghost function Run(page: Picture, snaps: seq<Snapshot>): (e: Ends)
    requires ValidPicture(page) && ValidSnapshots(snaps)
    ensures ValidPicture(e.page) && ValidShadow(e.shadow)
  {
    if snaps == [] then Ends(page, Forgotten())
    else
      var before, snap := Run(page, snaps[..|snaps| - 1]), snaps[|snaps| - 1];
      var sent := Encode(before.shadow, snap.m, snap.budget);
      Ends(PageAfter(before.page, sent.message), sent.shadow)
  }

  /** However the memory and the budget change from message to message, and whatever a new page starts with, the page
      has exactly the server's shadow on every line the server takes it to have. */
  lemma {:induction false} PageHasShadow(page: Picture, snaps: seq<Snapshot>)
    requires ValidPicture(page) && ValidSnapshots(snaps)
    ensures var e := Run(page, snaps); PageHas(e.page, e.shadow)
  {
    if snaps != [] {
      var before, snap := snaps[..|snaps| - 1], snaps[|snaps| - 1];
      PageHasShadow(page, before);
      var e := Run(page, before);
      PageFollows(e.page, e.shadow, snap.m, snap.budget);
    }
  }

  // ---- What a message brings up to date ----

  /** How many lines a message brings up to date: those before the first band left for the next one, or all. */
  ghost function Reach(s: Shadow, m: Picture, budget: int): (n: nat)
    requires ValidShadow(s) && ValidPicture(m)
    ensures n <= LINES
  {
    var bands, k := Bands(s, m, 0), SentCount(s, m, budget);
    if k < |bands| then
      BandsGood(s, m, 0, k);
      bands[k].i
    else LINES
  }

  lemma StaleCovered(s: Shadow, m: Picture, k: nat, j: nat)
    requires ValidShadow(s) && ValidPicture(m) && k <= |Bands(s, m, 0)| && j < LINES
    requires k < |Bands(s, m, 0)| ==> j < Bands(s, m, 0)[k].i
    requires Stale(s, m, LineAt(s.nextLine, j))
    ensures Covered(Bands(s, m, 0), k, LineAt(s.nextLine, j))
  {
    var b := BandsCover(s, m, 0, j);
    if k < b {
      BandsOrdered(s, m, 0, k, b);
    }
    assert b < k;
  }

  lemma BeyondNotCovered(s: Shadow, m: Picture, k: nat, j: nat)
    requires ValidShadow(s) && ValidPicture(m) && k < |Bands(s, m, 0)| && Bands(s, m, 0)[k].i <= j < LINES
    ensures !Covered(Bands(s, m, 0), k, LineAt(s.nextLine, j))
  {
    var bands, l := Bands(s, m, 0), LineAt(s.nextLine, j);
    forall b | 0 <= b < k ensures !Within(bands[b].rect, l) {
      BandsGood(s, m, 0, b);
      BandsOrdered(s, m, 0, b, k);
    }
  }

  lemma KnownLine(s: Shadow, m: Picture, k: nat, l: nat)
    requires ValidShadow(s) && ValidPicture(m) && k <= |Bands(s, m, 0)| && l < LINES
    ensures var bands := Bands(s, m, 0);
      ShadowAfter(s, m, bands[..k]).known[l] == (s.known[l] || Covered(bands, k, l))
  {
    var bands := Bands(s, m, 0);
    if Covered(bands, k, l) {
      var b :| 0 <= b < k && Within(bands[b].rect, l);
      assert Within(bands[..k][b].rect, l);
    }
  }

  /** Those lines are as the memory has them; every other line is as it was. */
  lemma SyncsReach(s: Shadow, m: Picture, budget: int, j: nat)
    requires ValidShadow(s) && ValidPicture(m) && j < LINES
    ensures var r, l := Encode(s, m, budget).shadow, LineAt(s.nextLine, j);
      if j < Reach(s, m, budget) then !Stale(r, m, l)
      else r.known[l] == s.known[l] && r.pixels[l] == s.pixels[l]
  {
    var bands, k, l := Bands(s, m, 0), SentCount(s, m, budget), LineAt(s.nextLine, j);
    PatchedLine(s, m, s.pixels, k, l);
    KnownLine(s, m, k, l);
    if j >= Reach(s, m, budget) {
      BeyondNotCovered(s, m, k, j);
    } else if Stale(s, m, l) {
      StaleCovered(s, m, k, j);
    }
  }

  // ---- Progress ----

  lemma PatchesCut(m: Picture, bands: seq<Band>, k: nat)
    requires ValidPicture(m) && k <= |bands|
    ensures Patches(m, bands)[..k] == Patches(m, bands[..k])
  {
  }

  lemma {:induction false} FittingSends(patches: seq<Patch>, budget: int, k: nat)
    requires k <= |patches|
    requires k <= 1 || |Message(patches[..k])| <= budget
    ensures var r := Fitting(patches, budget, k);
      && (r <= 1 || |Message(patches[..r])| <= budget)
      && (r < |patches| ==> r > 0 && |Message(patches[..r + 1])| > budget)
    decreases |patches| - k
  {
    if k < |patches| && (k == 0 || |Message(patches[..k + 1])| <= budget) {
      FittingSends(patches, budget, k + 1);
    }
  }

  /** A message is within the budget unless it is a single rectangle, and it stops only before a rectangle that would
      take it over. */
  lemma MessageFitsBudget(s: Shadow, m: Picture, budget: int)
    requires ValidShadow(s) && ValidPicture(m)
    ensures var bands, k, message := Bands(s, m, 0), SentCount(s, m, budget), Encode(s, m, budget).message;
      && (k == 1 || |message| <= Max(budget, 0))
      && (k < |bands| ==> k > 0 && |Message(Patches(m, bands[..k + 1]))| > budget)
  {
    var bands, k := Bands(s, m, 0), SentCount(s, m, budget);
    FittingSends(Patches(m, bands), budget, 0);
    PatchesCut(m, bands, k);
    PatchesCut(m, bands, Min(k + 1, |bands|));
  }

  /** There is nothing to send exactly when the page has everything. */
  lemma EmptyWhenSynced(s: Shadow, m: Picture, budget: int)
    requires ValidShadow(s) && ValidPicture(m)
    ensures Encode(s, m, budget).message == [] <==> forall l :: 0 <= l < LINES ==> !Stale(s, m, l)
  {
    hide X0, X1, Patches, ShadowAfter, KnownAfter, PutPatches;
    var bands, k := Bands(s, m, 0), SentCount(s, m, budget);
    MessageFitsBudget(s, m, budget);
    if k > 0 {
      BandsGood(s, m, 0, 0);
      assert Stale(s, m, bands[0].rect.line);
    } else {
      forall l | 0 <= l < LINES ensures !Stale(s, m, l) {
        var j := if l >= s.nextLine then l - s.nextLine else l + LINES - s.nextLine;
        if Stale(s, m, LineAt(s.nextLine, j)) {
          var b := BandsCover(s, m, 0, j);
          assert false;
        }
      }
    }
  }

  ghost function StaleSet(s: Shadow, m: Picture): set<int>
    requires ValidShadow(s) && ValidPicture(m)
  {
    set l | 0 <= l < LINES && Stale(s, m, l)
  }

  lemma NoneGoesStale(s: Shadow, m: Picture, budget: int, l: int)
    requires ValidShadow(s) && ValidPicture(m) && l in StaleSet(Encode(s, m, budget).shadow, m)
    ensures l in StaleSet(s, m)
  {
    SyncsReach(s, m, budget, if l >= s.nextLine then l - s.nextLine else l + LINES - s.nextLine);
  }

  lemma FirstBandSynced(s: Shadow, m: Picture, budget: int)
    requires ValidShadow(s) && ValidPicture(m) && SentCount(s, m, budget) > 0
    ensures var l := Bands(s, m, 0)[0].rect.line;
      l in StaleSet(s, m) && l !in StaleSet(Encode(s, m, budget).shadow, m)
  {
    hide X0, X1, Stale, Bands, LineAt;
    var bands, k := Bands(s, m, 0), SentCount(s, m, budget);
    BandsGood(s, m, 0, 0);
    if k < |bands| {
      BandsOrdered(s, m, 0, 0, k);
    }
    SyncsReach(s, m, budget, bands[0].i);
  }

  /** No message makes a line out of date, and each that is sent brings at least one up to date: with the memory as it
      is, there are as many messages as stale lines at most. */
  lemma MessageSyncsSome(s: Shadow, m: Picture, budget: int)
    requires ValidShadow(s) && ValidPicture(m)
    ensures var r := Encode(s, m, budget);
      && StaleSet(r.shadow, m) <= StaleSet(s, m)
      && (r.message != [] ==> |StaleSet(r.shadow, m)| < |StaleSet(s, m)|)
  {
    var before, after := StaleSet(s, m), StaleSet(Encode(s, m, budget).shadow, m);
    forall l | l in after ensures l in before {
      NoneGoesStale(s, m, budget, l);
    }
    if SentCount(s, m, budget) > 0 {
      FirstBandSynced(s, m, budget);
      Fewer(after, before, Bands(s, m, 0)[0].rect.line);
    }
  }

  lemma Fewer(s: set<int>, t: set<int>, x: int)
    requires s <= t && x in t && x !in s
    ensures |s| < |t|
  {
    assert t == s + (t - s);
    assert x in t - s;
  }

  /** The shadow after a message for each snapshot. */
  ghost function ServerAfter(s: Shadow, snaps: seq<Snapshot>): (r: Shadow)
    requires ValidShadow(s) && ValidSnapshots(snaps)
    ensures ValidShadow(r)
    decreases snaps
  {
    if snaps == [] then s else ServerAfter(Encode(s, snaps[0].m, snaps[0].budget).shadow, snaps[1..])
  }

  /** However small the budgets, once the memory keeps still the page has everything after as many messages as it
      lacked lines. */
  lemma {:induction false} StillMemoryConverges(s: Shadow, m: Picture, snaps: seq<Snapshot>)
    requires ValidShadow(s) && ValidPicture(m) && ValidSnapshots(snaps)
    requires forall i :: 0 <= i < |snaps| ==> snaps[i].m == m
    requires |snaps| >= |StaleSet(s, m)|
    ensures StaleSet(ServerAfter(s, snaps), m) == {}
    decreases snaps
  {
    if snaps != [] {
      var r := Encode(s, m, snaps[0].budget);
      MessageSyncsSome(s, m, snaps[0].budget);
      if r.message == [] {
        EmptyWhenSynced(s, m, snaps[0].budget);
        assert StaleSet(s, m) == {};
      }
      StillMemoryConverges(r.shadow, m, snaps[1..]);
    }
  }

  lemma SomethingReached(s: Shadow, m: Picture, k: nat)
    requires ValidShadow(s) && ValidPicture(m) && 0 < k < |Bands(s, m, 0)|
    ensures Bands(s, m, 0)[k].i > 0 && IsBand(s, m, Bands(s, m, 0)[k])
  {
    BandsGood(s, m, 0, k);
    BandsGood(s, m, 0, 0);
    BandsOrdered(s, m, 0, 0, k);
  }

  lemma NextStarts(s: Shadow, m: Picture, budget: int, j: nat)
    requires ValidShadow(s) && ValidPicture(m) && Reach(s, m, budget) <= j < LINES
    ensures var n, r := Reach(s, m, budget), Encode(s, m, budget).shadow;
      n > 0 && r.nextLine == LineAt(s.nextLine, n) && LineAt(r.nextLine, j - n) == LineAt(s.nextLine, j)
  {
    MessageFitsBudget(s, m, budget);
    SomethingReached(s, m, SentCount(s, m, budget));
  }

  lemma FirstOfMore(s: Shadow, snaps: seq<Snapshot>, i: nat)
    requires ValidShadow(s) && ValidSnapshots(snaps) && i < |snaps|
    ensures ServerAfter(s, snaps[..i + 1]) ==
      ServerAfter(Encode(s, snaps[0].m, snaps[0].budget).shadow, snaps[1..][..i])
  {
    assert snaps[..i + 1][1..] == snaps[1..][..i];
  }

  /** No line waits for ever, however much the others change and however small the budgets: the line j lines on from
      where a message starts is up to date after one of the next j + 1 messages. */
  lemma {:induction false} NoLineStarves(s: Shadow, snaps: seq<Snapshot>, j: nat) returns (i: nat)
    requires ValidShadow(s) && ValidSnapshots(snaps) && j < LINES && j < |snaps|
    ensures i <= j && !Stale(ServerAfter(s, snaps[..i + 1]), snaps[i].m, LineAt(s.nextLine, j))
    decreases j
  {
    hide Encode, Reach, Stale, LineAt;
    var m, budget := snaps[0].m, snaps[0].budget;
    var r, n := Encode(s, m, budget).shadow, Reach(s, m, budget);
    SyncsReach(s, m, budget, j);
    if j < n {
      i := 0;
    } else {
      NextStarts(s, m, budget, j);
      var c := NoLineStarves(r, snaps[1..], j - n);
      i := c + 1;
    }
    FirstOfMore(s, snaps, i);
  }

  /** So within any 320 messages in a row every line of the page has been brought up to date. */
  lemma EveryLineWithin320(s: Shadow, snaps: seq<Snapshot>, l: nat) returns (i: nat)
    requires ValidShadow(s) && ValidSnapshots(snaps) && |snaps| == LINES && l < LINES
    ensures i < LINES && !Stale(ServerAfter(s, snaps[..i + 1]), snaps[i].m, l)
  {
    var j := if l >= s.nextLine then l - s.nextLine else l + LINES - s.nextLine;
    assert LineAt(s.nextLine, j) == l;
    i := NoLineStarves(s, snaps, j);
  }
}
