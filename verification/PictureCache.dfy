/** The background-picture cache against the loader it stands in for. Files change between
    any two looks at them; a stamp names what a file held when it was stamped. */
module PictureCache {
  import opened Wrappers

  type ImageId = nat
  type Stamp = nat
  datatype Picture = Picture(width: nat, height: nat, pixels: seq<nat>)

  datatype Slot =
    | Ready(id: ImageId, width: nat, height: nat, stamp: Option<Stamp>)
    | Failed(stamp: Option<Stamp>)

  datatype Entry = Entry(slot: Slot, seen: nat)

  /** `stored` is the texture store's side: what is uploaded under each id. */
  datatype Cache = Cache(entries: map<string, Entry>, generation: nat, stored: map<ImageId, Picture>)

  /** `idOf` hashes a settings path; `picture` is what a file with that stamp decodes to, none
      when it does not. */
  datatype World = World(idOf: string -> ImageId, picture: (string, Stamp) -> Option<Picture>, isSpace: char -> bool)

  /** The moments one `get` may look at the file: to compare its stamp, to stamp it for a load,
      and to read it. None means there is no such file. */
  datatype Looks = Looks(check: Option<Stamp>, stamp: Option<Stamp>, read: Option<Stamp>)

  predicate IsBlank(isSpace: char -> bool, setting: string) {
    forall i :: 0 <= i < |setting| ==> isSpace(setting[i])
  }

  predicate Blank(w: World, setting: string) {
    IsBlank(w.isSpace, setting)
  }

  /** The store takes a picture whose bytes fill its size, and no other. */
  predicate Uploads(pic: Picture) {
    pic.width > 0 && pic.height > 0 && |pic.pixels| == 4 * (pic.width * pic.height)
  }

  /** What loading the file found there comes to. */
  function Loaded(w: World, p: string, at: Option<Stamp>): (r: Option<Picture>) {
    if at.None? then None
    else
      match w.picture(p, at.value)
      case None => None
      case Some(pic) => if Uploads(pic) then Some(pic) else None
  }

  function Answer(slot: Slot): (r: Option<(ImageId, nat, nat)>) {
    if slot.Ready? then Some((slot.id, slot.width, slot.height)) else None
  }

  /** The picture a slot puts on the screen. */
  function Shown(c: Cache, slot: Slot): (r: Option<Picture>) {
    if slot.Ready? && slot.id in c.stored then Some(c.stored[slot.id]) else None
  }

  function LoadSlot(w: World, p: string, looks: Looks): (slot: Slot) {
    match Loaded(w, p, looks.read)
    case None => Failed(looks.stamp)
    case Some(pic) => Ready(w.idOf(p), pic.width, pic.height, looks.stamp)
  }

  function Upload(stored: map<ImageId, Picture>, w: World, p: string, looks: Looks): (r: map<ImageId, Picture>) {
    match Loaded(w, p, looks.read)
    case None => stored
    case Some(pic) => stored[w.idOf(p) := pic]
  }

  predicate Unchanged(slot: Slot, looks: Looks) {
    looks.check.Some? && looks.check == slot.stamp
  }

  /** `Backgrounds::get` on the whole state. */
  function Get(w: World, c: Cache, p: string, looks: Looks): (r: Cache) {
    if Blank(w, p) then c
    else if p in c.entries && c.entries[p].seen == c.generation then c
    else if p in c.entries && Unchanged(c.entries[p].slot, looks) then
      c.(entries := c.entries[p := c.entries[p].(seen := c.generation)])
    else
      c.(entries := c.entries[p := Entry(LoadSlot(w, p, looks), c.generation)],
         stored := Upload(c.stored, w, p, looks))
  }

  function GetAnswer(w: World, c: Cache, p: string, looks: Looks): (r: Option<(ImageId, nat, nat)>) {
    if Blank(w, p) then None else Answer(Get(w, c, p, looks).entries[p].slot)
  }

  function LiveIds(entries: map<string, Entry>): (ids: set<ImageId>) {
    set p | p in entries && entries[p].slot.Ready? :: entries[p].slot.id
  }

  function Asked(c: Cache): (entries: map<string, Entry>) {
    map p | p in c.entries && c.entries[p].seen == c.generation :: c.entries[p]
  }

  /** `Backgrounds::invalidate`. */
  function Invalidate(c: Cache): (r: Cache) {
    var live := LiveIds(Asked(c));
    Cache(Asked(c), c.generation + 1, map i | i in c.stored && i in live :: c.stored[i])
  }

  // ---- every sequence of gets, edits and reloads ----

  /** `firsts` is a history: for each path asked for in this generation, what its file held at
      the first of those asks. `gone` is every stamp a file has been saved over with, and `paths`
      every path ever asked for. */
  datatype System = System(cache: Cache, firsts: map<string, Option<Picture>>, gone: set<(string, Stamp)>, paths: set<string>)

  datatype Step =
    | Ask(path: string, looks: Looks)
    | Reload

  function Init(): System {
    System(Cache(map[], 0, map[]), map[], {}, {})
  }

  predicate Current(gone: set<(string, Stamp)>, p: string, at: Option<Stamp>) {
    at.Some? ==> (p, at.value) !in gone
  }

  function Superseded(p: string, at: Option<Stamp>, next: Option<Stamp>): (r: set<(string, Stamp)>) {
    if at.Some? && at != next then {(p, at.value)} else {}
  }

  /** A file saved over does not come back under a stamp it had before, nor between two of one
      call's looks at it. */
  predicate Enabled(s: System, st: Step) {
    match st
    case Reload => true
    case Ask(p, l) =>
      && Current(s.gone, p, l.check) && Current(s.gone, p, l.stamp)
      && Current(s.gone + Superseded(p, l.check, l.stamp), p, l.read)
  }

  /** What the call's own look at the file found: the stamp it compared, if that was all it
      needed, and otherwise what it read. */
  function Found(w: World, c: Cache, p: string, l: Looks): (r: Option<Picture>) {
    if p in c.entries && Unchanged(c.entries[p].slot, l) then Loaded(w, p, l.check) else Loaded(w, p, l.read)
  }

  function Do(w: World, s: System, st: Step): (u: System) {
    match st
    case Reload => System(Invalidate(s.cache), map[], s.gone, s.paths)
    case Ask(p, l) =>
      System(Get(w, s.cache, p, l),
             if Blank(w, p) || p in s.firsts then s.firsts else s.firsts[p := Found(w, s.cache, p, l)],
             s.gone + Superseded(p, l.check, l.stamp) + Superseded(p, l.stamp, l.read),
             if Blank(w, p) then s.paths else s.paths + {p})
  }

  ghost predicate Runs(w: World, s: System, steps: seq<Step>, end: System)
    decreases |steps|
  {
    if steps == [] then s == end
    else Enabled(s, steps[0]) && Runs(w, Do(w, s, steps[0]), steps[1..], end)
  }

  ghost predicate Reachable(w: World, s: System) {
    exists steps: seq<Step> :: Runs(w, Init(), steps, s)
  }

  /** No two of the paths hash to one id. */
  predicate Apart(idOf: string -> ImageId, paths: set<string>) {
    forall p, q :: p in paths && q in paths && idOf(p) == idOf(q) ==> p == q
  }

  predicate SlotOk(w: World, c: Cache, p: string, slot: Slot) {
    slot.Ready? ==>
      && slot.id == w.idOf(p) && slot.id in c.stored
      && c.stored[slot.id].width == slot.width && c.stored[slot.id].height == slot.height
  }

  /** An entry shows what the first ask of its generation found; and while its stamp can still
      be met with, what a file under that stamp holds. */
  predicate EntryOk(w: World, s: System, p: string)
    requires p in s.cache.entries
  {
    var e := s.cache.entries[p];
    && !Blank(w, p) && SlotOk(w, s.cache, p, e.slot)
    && (e.seen == s.cache.generation || e.seen + 1 == s.cache.generation)
    && (e.seen == s.cache.generation <==> p in s.firsts)
    && (p in s.firsts ==> s.firsts[p] == Shown(s.cache, e.slot))
    && (e.slot.stamp.Some? && (p, e.slot.stamp.value) !in s.gone ==>
          Shown(s.cache, e.slot) == Loaded(w, p, e.slot.stamp))
  }

  predicate Inv(w: World, s: System) {
    && (forall p :: p in s.cache.entries ==> EntryOk(w, s, p)) && (forall p :: p in s.firsts ==> p in s.cache.entries)
    && s.cache.entries.Keys <= s.paths
  }

  lemma AskKeepsInv(w: World, s: System, p: string, l: Looks)
    requires Inv(w, s) && Enabled(s, Ask(p, l)) && Apart(w.idOf, Do(w, s, Ask(p, l)).paths)
    ensures Inv(w, Do(w, s, Ask(p, l)))
  {
    var u := Do(w, s, Ask(p, l));
    forall q | q in u.cache.entries
      ensures EntryOk(w, u, q)
    {
      if q != p {
        OthersKeep(w, s, p, l, q);
      } else {
        AskedIsOk(w, s, p, l);
      }
    }
  }

  lemma OthersKeep(w: World, s: System, p: string, l: Looks, q: string)
    requires Inv(w, s) && Apart(w.idOf, Do(w, s, Ask(p, l)).paths) && q != p && q in s.cache.entries
    ensures q in Get(w, s.cache, p, l).entries && EntryOk(w, Do(w, s, Ask(p, l)), q)
  {
    assert EntryOk(w, s, q);
    assert q in s.paths && (Blank(w, p) || w.idOf(q) != w.idOf(p));
  }

  lemma AskedIsOk(w: World, s: System, p: string, l: Looks)
    requires Inv(w, s) && Enabled(s, Ask(p, l)) && p in Get(w, s.cache, p, l).entries
    ensures EntryOk(w, Do(w, s, Ask(p, l)), p)
  {
    if p in s.cache.entries {
      assert EntryOk(w, s, p);
    }
  }

  lemma ReloadKeepsInv(w: World, s: System)
    requires Inv(w, s)
    ensures Inv(w, Do(w, s, Reload))
  {
    var u := Do(w, s, Reload);
    forall p | p in u.cache.entries
      ensures EntryOk(w, u, p)
    {
      assert EntryOk(w, s, p);
      var slot := s.cache.entries[p].slot;
      if slot.Ready? {
        assert slot.id in LiveIds(Asked(s.cache));
      }
    }
  }

  lemma {:induction false} PathsGrow(w: World, s: System, steps: seq<Step>, end: System)
    requires Runs(w, s, steps, end)
    ensures s.paths <= end.paths
    decreases |steps|
  {
    hide Enabled;
    if steps != [] {
      PathsGrow(w, Do(w, s, steps[0]), steps[1..], end);
    }
  }

  lemma {:induction false} RunKeepsInv(w: World, s: System, steps: seq<Step>, end: System)
    requires Inv(w, s) && Runs(w, s, steps, end) && Apart(w.idOf, end.paths)
    ensures Inv(w, end)
    decreases |steps|
  {
    hide Inv, Do;
    if steps != [] {
      PathsGrow(w, Do(w, s, steps[0]), steps[1..], end);
      match steps[0]
      case Ask(p, l) =>
        AskKeepsInv(w, s, p, l);
        RunKeepsInv(w, Do(w, s, steps[0]), steps[1..], end);
      case Reload =>
        ReloadKeepsInv(w, s);
        RunKeepsInv(w, Do(w, s, steps[0]), steps[1..], end);
    }
  }

  lemma ReachableInv(w: World, s: System)
    requires Reachable(w, s) && Apart(w.idOf, s.paths)
    ensures Inv(w, s)
  {
    hide Runs;
    var steps: seq<Step> :| Runs(w, Init(), steps, s);
    RunKeepsInv(w, Init(), steps, s);
  }

  // ---- what it gives ----

  /** What the screen shows for an answer. */
  function OnScreen(c: Cache, answer: Option<(ImageId, nat, nat)>): (r: Option<Picture>) {
    if answer.Some? && answer.value.0 in c.stored then Some(c.stored[answer.value.0]) else None
  }

  /** A `get` answers with what the first ask of this generation found in the file; when it is
      itself the first, with what a load made during the call comes to, and if the file held
      still meanwhile, exactly what an uncached load comes to. */
  predicate Fresh(w: World, s: System, p: string, l: Looks)
    requires !Blank(w, p)
  {
    var (c, answer) := (Get(w, s.cache, p, l), GetAnswer(w, s.cache, p, l));
    && (p in s.firsts ==> OnScreen(c, answer) == s.firsts[p] && c == s.cache)
    && (p !in s.firsts ==> OnScreen(c, answer) in {Loaded(w, p, l.check), Loaded(w, p, l.read)})
    && (p !in s.firsts && l.check == l.stamp == l.read ==> OnScreen(c, answer) == Loaded(w, p, l.read))
  }

  /** After any sequence of asks, edits and reloads, every `get` is fresh, as long as no two of
      the paths ever asked for hash to one id. */
  lemma EveryGetIsFresh(w: World, s: System, p: string, l: Looks)
    requires Reachable(w, s) && Enabled(s, Ask(p, l)) && !Blank(w, p) && Apart(w.idOf, s.paths + {p})
    ensures Fresh(w, s, p, l)
  {
    ReachableInv(w, s);
    if p in s.cache.entries {
      assert EntryOk(w, s, p);
    }
    AskKeepsInv(w, s, p, l);
    assert EntryOk(w, Do(w, s, Ask(p, l)), p);
  }

  /** No answer ever names a picture that has been evicted, nor gives it another size. */
  lemma NoAnswerIsEvicted(w: World, s: System, p: string, l: Looks)
    requires Reachable(w, s) && Enabled(s, Ask(p, l)) && Apart(w.idOf, s.paths + {p})
    requires GetAnswer(w, s.cache, p, l).Some?
    ensures var (id, width, height) := GetAnswer(w, s.cache, p, l).value;
      var c := Get(w, s.cache, p, l);
      id in c.stored && c.stored[id].width == width && c.stored[id].height == height
  {
    ReachableInv(w, s);
    AskKeepsInv(w, s, p, l);
    assert EntryOk(w, Do(w, s, Ask(p, l)), p);
  }

  /** Every entry was asked for in this generation or the one before; and a reload leaves in
      the store the pictures of the paths asked for since the last one, and no others. */
  lemma NothingLingers(w: World, s: System)
    requires Reachable(w, s) && Apart(w.idOf, s.paths)
    ensures forall p :: p in s.cache.entries ==>
      s.cache.entries[p].seen <= s.cache.generation <= s.cache.entries[p].seen + 1
    ensures var after := Invalidate(s.cache);
      && after.entries.Keys == s.firsts.Keys && after.stored.Keys == LiveIds(after.entries)
  {
    ReachableInv(w, s);
    forall p | p in s.cache.entries
      ensures s.cache.entries[p].seen <= s.cache.generation <= s.cache.entries[p].seen + 1
    {
      assert EntryOk(w, s, p);
    }
    ReloadKeepsInv(w, s);
    var after := Invalidate(s.cache);
    forall i | i in LiveIds(after.entries)
      ensures i in after.stored
    {
      var p :| p in after.entries && after.entries[p].slot.Ready? && after.entries[p].slot.id == i;
      assert EntryOk(w, Do(w, s, Reload), p);
    }
    forall p | p in s.firsts
      ensures p in after.entries
    {
      assert EntryOk(w, s, p);
    }
    forall p | p in after.entries
      ensures p in s.firsts
    {
      assert EntryOk(w, s, p);
    }
  }

  // ---- and it needs the paths apart ----

  /** The paths a `get` looks at: a blank one never reaches the cache. */
  function Named(isSpace: char -> bool, paths: set<string>): (r: set<string>) {
    set p | p in paths && !IsBlank(isSpace, p)
  }

  /** Whatever the files hold, every run that asks only for these paths stays fresh. */
  ghost predicate AlwaysFresh(idOf: string -> ImageId, isSpace: char -> bool, paths: set<string>) {
    forall w: World, s: System, p: string, l: Looks |
      w.idOf == idOf && w.isSpace == isSpace && Reachable(w, s) && Enabled(s, Ask(p, l)) && !Blank(w, p) && s.paths + {p} <= paths
      :: Fresh(w, s, p, l)
  }

  lemma PathsAreNamed(w: World, s: System)
    requires Reachable(w, s)
    ensures forall p :: p in s.paths ==> !IsBlank(w.isSpace, p)
  {
    hide Runs;
    var steps: seq<Step> :| Runs(w, Init(), steps, s);
    RunKeepsNamed(w, Init(), steps, s);
  }

  lemma {:induction false} RunKeepsNamed(w: World, s: System, steps: seq<Step>, end: System)
    requires Runs(w, s, steps, end) && forall p :: p in s.paths ==> !IsBlank(w.isSpace, p)
    ensures forall p :: p in end.paths ==> !IsBlank(w.isSpace, p)
    decreases |steps|
  {
    hide Enabled, Get, Found, Invalidate;
    if steps != [] {
      RunKeepsNamed(w, Do(w, s, steps[0]), steps[1..], end);
    }
  }

  /** The cache stands in for the loader on a set of paths exactly if no two of them hash to
      one id. */
  lemma FreshExactly(idOf: string -> ImageId, isSpace: char -> bool, paths: set<string>)
    ensures AlwaysFresh(idOf, isSpace, paths) <==> Apart(idOf, Named(isSpace, paths))
  {
    if Apart(idOf, Named(isSpace, paths)) {
      forall w: World, s: System, p: string, l: Looks | w.idOf == idOf && w.isSpace == isSpace && Reachable(w, s)
        && Enabled(s, Ask(p, l)) && !Blank(w, p) && s.paths + {p} <= paths
        ensures Fresh(w, s, p, l)
      {
        hide Reachable;
        PathsAreNamed(w, s);
        EveryGetIsFresh(w, s, p, l);
      }
    } else {
      var named := Named(isSpace, paths);
      var p, q :| p in named && q in named && idOf(p) == idOf(q) && p != q;
      var w, s, l := CollisionShowsTheOther(idOf, isSpace, p, q);
      assert s.paths + {p} <= paths;
    }
  }

  function Dot(stamp: Stamp): (pic: Picture) {
    Picture(1, 1, [stamp, stamp, stamp, stamp])
  }

  function Still(stamp: Stamp): (l: Looks) {
    Looks(Some(stamp), Some(stamp), Some(stamp))
  }

  /** Where two paths have one id, asking for the one and then the other puts the second one's
      picture where the first one's was. */
  lemma CollisionShowsTheOther(idOf: string -> ImageId, isSpace: char -> bool, p: string, q: string)
    returns (w: World, s: System, l: Looks)
    requires p != q && idOf(p) == idOf(q) && !IsBlank(isSpace, p) && !IsBlank(isSpace, q)
    ensures w.idOf == idOf && w.isSpace == isSpace && Reachable(w, s) && s.paths == {p, q}
    ensures Enabled(s, Ask(p, l)) && !Blank(w, p) && !Fresh(w, s, p, l)
  {
    w, l := World(idOf, (path: string, stamp: Stamp) => Some(Dot(stamp)), isSpace), Still(1);
    assert !Blank(w, p) && !Blank(w, q);
    var asks := [Ask(p, l), Ask(q, Still(2))];
    var one := Do(w, Init(), asks[0]);
    s := Do(w, one, asks[1]);
    assert Runs(w, s, [], s);
    assert asks[1..][1..] == [] && Runs(w, one, asks[1..], s);
    assert Runs(w, Init(), asks, s);
    assert s.firsts[p] == Some(Dot(1)) && s.cache.stored[idOf(p)] == Dot(2);
    assert Dot(1).pixels[0] != Dot(2).pixels[0];
  }
}
