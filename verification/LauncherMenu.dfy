/** The launcher menu as data: groups of launch targets by the machine that will run them,
    flattened into rows and, in parallel, what each row does. */
module LauncherMenu {
  import opened Wrappers

  type HostId = nat

  datatype ProfileRef = Local(name: string) | Remote(host: HostId, name: string)

  datatype Action =
    | Launch(target: ProfileRef)
    | LaunchDefault
    | RunOnHost(choice: Option<ProfileRef>)
    | ManageProfiles
    | Nothing

  datatype Row =
    | Header(title: string, online: bool)
    | Profile(name: string, command: string, default: bool, digit: Option<nat>, active: bool)
    | Note
    | Divider
    | RunOnHostRow
    | ManageProfilesRow

  /** A profile of this machine's own, as the cascade resolves it. */
  datatype LocalProfile = LocalProfile(name: string, askHost: bool, host: Option<string>, command: Option<string>)

  datatype Published = Published(name: string, command: string)

  datatype Offer = Offer(profiles: seq<Published>, shell: string)

  /** `fresh` when the host's watcher has delivered a listing. */
  datatype Host = Host(
    id: HostId,
    title: string,
    local: bool,
    online: bool,
    enrolled: bool,
    answered: bool,
    offer: Option<Offer>)

  datatype Bucket = Any | Here | On(id: HostId) | Unknown(title: string)

  /** Rank, title, host: what orders the groups and what tells two of them apart. */
  datatype Key = Key(rank: nat, title: string, host: Option<HostId>)

  datatype Entry = Entry(name: string, command: string, target: ProfileRef)

  datatype Group = Group(key: Key, entries: seq<Entry>)

  // ---- the order of keys ----

  predicate StringLess(a: string, b: string)
    decreases |a|
  {
    b != [] && (a == [] || a[0] < b[0] || (a[0] == b[0] && StringLess(a[1..], b[1..])))
  }

  predicate HostLess(a: Option<HostId>, b: Option<HostId>) {
    b.Some? && (a.None? || a.value < b.value)
  }

  predicate KeyLess(a: Key, b: Key) {
    || a.rank < b.rank
    || (a.rank == b.rank && StringLess(a.title, b.title))
    || (a.rank == b.rank && a.title == b.title && HostLess(a.host, b.host))
  }

  lemma {:induction false} StringTrichotomy(a: string, b: string)
    ensures StringLess(a, b) || a == b || StringLess(b, a)
    ensures !(StringLess(a, b) && StringLess(b, a)) && (a == b ==> !StringLess(a, b))
    decreases |a|
  {
    if a != [] && b != [] && a[0] == b[0] {
      StringTrichotomy(a[1..], b[1..]);
      assert a == [a[0]] + a[1..] && b == [b[0]] + b[1..];
    }
  }

  lemma {:induction false} StringTransitive(a: string, b: string, c: string)
    requires StringLess(a, b) && StringLess(b, c)
    ensures StringLess(a, c)
    decreases |a|
  {
    if a != [] && a[0] == b[0] == c[0] {
      StringTransitive(a[1..], b[1..], c[1..]);
    }
  }

  lemma KeyTrichotomy(a: Key, b: Key)
    ensures KeyLess(a, b) || a == b || KeyLess(b, a)
    ensures !(KeyLess(a, b) && KeyLess(b, a)) && (a == b ==> !KeyLess(a, b))
  {
    StringTrichotomy(a.title, b.title);
  }

  lemma KeyTransitive(a: Key, b: Key, c: Key)
    requires KeyLess(a, b) && KeyLess(b, c)
    ensures KeyLess(a, c)
  {
    if StringLess(a.title, b.title) && StringLess(b.title, c.title) {
      StringTransitive(a.title, b.title, c.title);
    }
  }

  // ---- which machine ----

  predicate Space(c: char) {
    c == ' ' || c == '\t' || c == '\n' || c == '\r'
  }

  function Trim(s: string): (t: string)
    decreases |s|
  {
    if s != [] && Space(s[0]) then Trim(s[1..])
    else if s != [] && Space(s[|s| - 1]) then Trim(s[..|s| - 1])
    else s
  }

  function Lower(c: char): (d: char) {
    if 'A' <= c <= 'Z' then c + ' ' else c
  }

  predicate SameLabel(a: string, b: string) {
    |a| == |b| && forall i :: 0 <= i < |a| ==> Lower(a[i]) == Lower(b[i])
  }

  function FindLabel(fleet: seq<Host>, title: string): (h: Option<Host>) {
    if fleet == [] then None
    else if SameLabel(fleet[0].title, title) then Some(fleet[0])
    else FindLabel(fleet[1..], title)
  }

  function FindHost(fleet: seq<Host>, id: HostId): (h: Option<Host>) {
    if fleet == [] then None
    else if fleet[0].id == id then Some(fleet[0])
    else FindHost(fleet[1..], id)
  }

  /** Which machine a locally defined profile belongs under. */
  function BucketFor(askHost: bool, host: Option<string>, fleet: seq<Host>): (b: Bucket) {
    if askHost then Any
    else if host.None? || Trim(host.value) == [] then Here
    else
      match FindLabel(fleet, Trim(host.value))
      case Some(h) => if h.local then Here else On(h.id)
      case None => Unknown(Trim(host.value))
  }

  function BucketOf(p: LocalProfile, fleet: seq<Host>): (b: Bucket) {
    BucketFor(p.askHost, p.host, fleet)
  }

  /** A host's display name, or a short form of its id when the fleet does not list it. */
  function LabelOf(fleet: seq<Host>, short: HostId -> string, id: HostId): (l: string) {
    var h := FindHost(fleet, id);
    if h.Some? then h.value.title else short(id)
  }

  function KeyOf(b: Bucket, fleet: seq<Host>, short: HostId -> string): (k: Key) {
    match b
    case Any => Key(0, "", None)
    case Here => Key(1, "", None)
    case On(id) => Key(2, LabelOf(fleet, short, id), Some(id))
    case Unknown(title) => Key(3, title, None)
  }

  /** Two buckets never share a group, not even machines of one name. */
  lemma KeysTellApart(a: Bucket, b: Bucket, fleet: seq<Host>, short: HostId -> string)
    ensures KeyOf(a, fleet, short) == KeyOf(b, fleet, short) <==> a == b
  {}

  function ShownCommand(command: string, shell: string): (s: string) {
    if command != [] then command else if shell == [] then "the host's default shell" else shell
  }

  function CommandOf(p: LocalProfile, fleet: seq<Host>, fallback: string): (s: string) {
    match p.command
    case Some(c) => c
    case None =>
      match BucketOf(p, fleet)
      case Any => fallback
      case Here => fallback
      case On(id) =>
        var h := FindHost(fleet, id);
        ShownCommand("", if h.Some? && h.value.offer.Some? then h.value.offer.value.shell else "")
      case Unknown(_) => ShownCommand("", "")
  }

  /** A row promises what its machine will run: this machine's fallback stands for a missing
      command exactly where the row may run here, and nowhere else has a say in it. */
  lemma CommandIsItsMachines(p: LocalProfile, fleet: seq<Host>, fallback: string, other: string)
    requires fallback != other
    ensures CommandOf(p, fleet, fallback) != CommandOf(p, fleet, other)
      <==> p.command.None? && BucketOf(p, fleet) in {Any, Here}
    ensures p.command.Some? ==> CommandOf(p, fleet, fallback) == p.command.value
  {}

  // ---- the groups, a map kept in key order ----

  predicate Sorted(gs: seq<Group>) {
    forall i, j :: 0 <= i < j < |gs| ==> KeyLess(gs[i].key, gs[j].key)
  }

  /** The group a key names, created on first use. */
  function Touch(gs: seq<Group>, k: Key): (r: seq<Group>) {
    if gs == [] then [Group(k, [])]
    else if gs[0].key == k then gs
    else if KeyLess(k, gs[0].key) then [Group(k, [])] + gs
    else [gs[0]] + Touch(gs[1..], k)
  }

  function Push(gs: seq<Group>, k: Key, e: Entry): (r: seq<Group>)
    ensures |r| == |gs|
  {
    if gs == [] then []
    else if gs[0].key == k then [gs[0].(entries := gs[0].entries + [e])] + gs[1..]
    else [gs[0]] + Push(gs[1..], k, e)
  }

  function Listed(gs: seq<Group>, k: Key): (entries: seq<Entry>) {
    if gs == [] then [] else if gs[0].key == k then gs[0].entries else Listed(gs[1..], k)
  }

  predicate Named(entries: seq<Entry>, name: string) {
    exists i :: 0 <= i < |entries| && entries[i].name == name
  }

  predicate HasKey(gs: seq<Group>, k: Key) {
    exists i :: 0 <= i < |gs| && gs[i].key == k
  }

  lemma {:induction false} TouchKeeps(gs: seq<Group>, k: Key)
    requires Sorted(gs)
    ensures var r := Touch(gs, k);
      && Sorted(r) && HasKey(r, k) && (forall q :: Listed(r, q) == Listed(gs, q))
      && (forall i :: 0 <= i < |r| ==> r[i].key == k || HasKey(gs, r[i].key))
  {
    if gs == [] {
      assert Touch(gs, k)[0].key == k;
    } else if gs[0].key == k {
    } else {
      KeyTrichotomy(k, gs[0].key);
      var r := Touch(gs, k);
      if KeyLess(k, gs[0].key) {
        assert r[0].key == k;
        forall j | 0 < j < |r|
          ensures KeyLess(k, r[j].key)
        {
          if j > 1 {
            KeyTransitive(k, gs[0].key, gs[j - 1].key);
          }
        }
        NoneListed(gs, k);
      } else {
        TouchKeeps(gs[1..], k);
        var t := Touch(gs[1..], k);
        var i :| 0 <= i < |t| && t[i].key == k;
        assert r[i + 1].key == k;
        forall j | 0 <= j < |t|
          ensures KeyLess(gs[0].key, t[j].key) && (t[j].key == k || HasKey(gs, t[j].key))
        {
          if t[j].key != k {
            var m :| 0 <= m < |gs[1..]| && gs[1..][m].key == t[j].key;
            assert gs[m + 1].key == t[j].key;
          }
        }
      }
    }
  }

  lemma {:induction false} NoneListed(gs: seq<Group>, k: Key)
    requires Sorted(gs) && gs != [] && KeyLess(k, gs[0].key)
    ensures Listed(gs, k) == []
  {
    KeyTrichotomy(k, gs[0].key);
    if |gs| > 1 {
      KeyTransitive(k, gs[0].key, gs[1].key);
      NoneListed(gs[1..], k);
    }
  }

  lemma {:induction false} PushAt(gs: seq<Group>, k: Key, e: Entry, i: nat)
    requires Sorted(gs) && i < |gs|
    ensures var r := Push(gs, k, e);
      r[i].key == gs[i].key && r[i].entries == if gs[i].key == k then gs[i].entries + [e] else gs[i].entries
  {
    if gs[0].key == k {
      KeyTrichotomy(gs[0].key, gs[i].key);
    } else if i > 0 {
      PushAt(gs[1..], k, e, i - 1);
    }
  }

  lemma {:induction false} ListedOfPush(gs: seq<Group>, k: Key, e: Entry, q: Key)
    requires HasKey(gs, k)
    ensures Listed(Push(gs, k, e), q) == if q == k then Listed(gs, k) + [e] else Listed(gs, q)
  {
    if gs[0].key != k {
      var n :| 0 <= n < |gs| && gs[n].key == k;
      assert gs[1..][n - 1].key == k;
      ListedOfPush(gs[1..], k, e, q);
    }
  }

  function TimesIn(entries: seq<Entry>, t: ProfileRef): (n: nat) {
    if entries == [] then 0
    else TimesIn(entries[..|entries| - 1], t) + (if entries[|entries| - 1].target == t then 1 else 0)
  }

  /** How many rows a target has. */
  function Times(gs: seq<Group>, t: ProfileRef): (n: nat) {
    if gs == [] then 0 else TimesIn(gs[0].entries, t) + Times(gs[1..], t)
  }

  lemma {:induction false} TimesOfTouch(gs: seq<Group>, k: Key, t: ProfileRef)
    ensures Times(Touch(gs, k), t) == Times(gs, t)
  {
    if gs == [] {
      assert Touch(gs, k)[1..] == [];
    } else if gs[0].key == k {
    } else if KeyLess(k, gs[0].key) {
      assert Touch(gs, k)[1..] == gs;
    } else {
      TimesOfTouch(gs[1..], k, t);
    }
  }

  lemma {:induction false} TimesOfPush(gs: seq<Group>, k: Key, e: Entry, t: ProfileRef)
    requires HasKey(gs, k)
    ensures Times(Push(gs, k, e), t) == Times(gs, t) + (if e.target == t then 1 else 0)
  {
    var r := Push(gs, k, e);
    if gs[0].key == k {
      assert r[1..] == gs[1..];
      assert (gs[0].entries + [e])[..|gs[0].entries|] == gs[0].entries;
    } else {
      var n :| 0 <= n < |gs| && gs[n].key == k;
      assert gs[1..][n - 1].key == k;
      TimesOfPush(gs[1..], k, e, t);
    }
  }

  predicate NoneEmpty(gs: seq<Group>) {
    forall i :: 0 <= i < |gs| ==> gs[i].entries != []
  }

  /** Put an entry in its group, making the group if need be. */
  function Add(gs: seq<Group>, k: Key, e: Entry): (r: seq<Group>) {
    Push(Touch(gs, k), k, e)
  }

  lemma AddKeeps(gs: seq<Group>, k: Key, e: Entry)
    requires Sorted(gs) && NoneEmpty(gs)
    ensures var r := Add(gs, k, e);
      && Sorted(r) && NoneEmpty(r)
      && Listed(r, k) == Listed(gs, k) + [e] && (forall q :: q != k ==> Listed(r, q) == Listed(gs, q))
      && (forall t :: Times(r, t) == Times(gs, t) + (if e.target == t then 1 else 0))
  {
    hide Touch, Push, KeyLess, Times, Listed;
    var t := Touch(gs, k);
    TouchKeeps(gs, k);
    forall i | 0 <= i < |t|
      ensures Push(t, k, e)[i].key == t[i].key && Push(t, k, e)[i].entries != []
    {
      PushAt(t, k, e, i);
      ListedAt(t, i);
      if t[i].key != k {
        var m :| 0 <= m < |gs| && gs[m].key == t[i].key;
        ListedAt(gs, m);
      }
    }
    forall q
      ensures Listed(Add(gs, k, e), q) == if q == k then Listed(gs, k) + [e] else Listed(gs, q)
    {
      ListedOfPush(t, k, e, q);
    }
    forall x: ProfileRef
      ensures Times(Add(gs, k, e), x) == Times(gs, x) + (if e.target == x then 1 else 0)
    {
      TimesOfTouch(gs, k, x);
      TimesOfPush(t, k, e, x);
    }
  }

  lemma {:induction false} ListedAt(gs: seq<Group>, i: nat)
    requires Sorted(gs) && i < |gs|
    ensures Listed(gs, gs[i].key) == gs[i].entries
  {
    if i > 0 {
      KeyTrichotomy(gs[0].key, gs[i].key);
      ListedAt(gs[1..], i - 1);
    }
  }

  lemma {:induction false} TouchOfListed(gs: seq<Group>, k: Key)
    requires Sorted(gs) && Listed(gs, k) != []
    ensures Touch(gs, k) == gs
  {
    if gs[0].key != k {
      if KeyLess(k, gs[0].key) {
        NoneListed(gs, k);
      }
      TouchOfListed(gs[1..], k);
    }
  }

  // ---- filling the groups ----

  /** Everything the menu is built from. */
  datatype Source = Source(profiles: seq<LocalProfile>, fleet: seq<Host>, fallback: string, short: HostId -> string)

  /** The reserved name goes first; the rest keep the order of the profiles table. */
  function DefaultFirst(ps: seq<LocalProfile>): (r: seq<LocalProfile>) {
    var i := Find(ps, "default", 0);
    if i == |ps| then ps else [ps[i]] + ps[..i] + ps[i + 1..]
  }

  function Find(ps: seq<LocalProfile>, name: string, i: nat): (r: nat)
    requires i <= |ps|
    ensures i <= r <= |ps| && (r < |ps| ==> ps[r].name == name)
    ensures forall j :: i <= j < r ==> ps[j].name != name
    decreases |ps| - i
  {
    if i == |ps| || ps[i].name == name then i else Find(ps, name, i + 1)
  }

  function Arranged(s: Source): (t: Source) {
    s.(profiles := DefaultFirst(s.profiles))
  }

  /** Arranging loses no profile and doubles none; the reserved one leads where there is one. */
  lemma ArrangedKeeps(s: Source)
    requires DistinctNames(s)
    ensures var t := Arranged(s);
      && DistinctNames(t) && multiset(t.profiles) == multiset(s.profiles)
      && (HasLocal(s, |s.profiles|, "default") ==> t.profiles[0].name == "default")
  {
    var ps, i := s.profiles, Find(s.profiles, "default", 0);
    if i < |ps| {
      assert ps == ps[..i] + [ps[i]] + ps[i + 1..];
      var r := DefaultFirst(ps);
      assert forall k :: 0 <= k < |r| ==> r[k] == if k == 0 then ps[i] else if k <= i then ps[k - 1] else ps[k];
    }
  }

  function LocalEntry(s: Source, p: LocalProfile): (e: Entry) {
    Entry(p.name, CommandOf(p, s.fleet, s.fallback), Local(p.name))
  }

  function LocalKey(s: Source, p: LocalProfile): (k: Key) {
    KeyOf(BucketOf(p, s.fleet), s.fleet, s.short)
  }

  function HostKey(s: Source, id: HostId): (k: Key) {
    KeyOf(On(id), s.fleet, s.short)
  }

  function WithLocals(s: Source, n: nat): (gs: seq<Group>)
    requires n <= |s.profiles|
  {
    if n == 0 then []
    else Add(WithLocals(s, n - 1), LocalKey(s, s.profiles[n - 1]), LocalEntry(s, s.profiles[n - 1]))
  }

  /** A name the group already has keeps its row; otherwise the published profile gets one. */
  function AddPublished(s: Source, gs: seq<Group>, h: Host, p: Published, shell: string): (r: seq<Group>) {
    var k := HostKey(s, h.id);
    if Named(Listed(Touch(gs, k), k), p.name) then Touch(gs, k)
    else Add(gs, k, Entry(p.name, ShownCommand(p.command, shell), Remote(h.id, p.name)))
  }

  function WithOffer(s: Source, gs: seq<Group>, h: Host, n: nat): (r: seq<Group>)
    requires h.offer.Some? && n <= |h.offer.value.profiles|
  {
    if n == 0 then gs
    else AddPublished(s, WithOffer(s, gs, h, n - 1), h, h.offer.value.profiles[n - 1], h.offer.value.shell)
  }

  predicate Publishes(h: Host) {
    !h.local && h.offer.Some?
  }

  function WithFleet(s: Source, n: nat): (gs: seq<Group>)
    requires n <= |s.fleet|
  {
    if n == 0 then WithLocals(s, |s.profiles|)
    else if Publishes(s.fleet[n - 1]) then
      WithOffer(s, WithFleet(s, n - 1), s.fleet[n - 1], |s.fleet[n - 1].offer.value.profiles|)
    else WithFleet(s, n - 1)
  }

  function Groups(s: Source): (gs: seq<Group>) {
    WithFleet(s, |s.fleet|)
  }

  // ---- what ends up in them ----

  predicate HasLocal(s: Source, n: nat, name: string)
    requires n <= |s.profiles|
  {
    exists i :: 0 <= i < n && s.profiles[i].name == name
  }

  /** A local profile of this name is pinned to the host. */
  predicate Claims(s: Source, id: HostId, name: string) {
    exists i :: 0 <= i < |s.profiles| && s.profiles[i].name == name && BucketOf(s.profiles[i], s.fleet) == On(id)
  }

  predicate Offers(h: Host, n: nat, name: string)
    requires h.offer.Some? && n <= |h.offer.value.profiles|
  {
    exists j :: 0 <= j < n && h.offer.value.profiles[j].name == name
  }

  /** A machine other than this one publishes a profile of this name. */
  predicate Publishing(s: Source, n: nat, id: HostId, name: string)
    requires n <= |s.fleet|
  {
    exists i :: 0 <= i < n && Publishes(s.fleet[i]) && s.fleet[i].id == id
      && Offers(s.fleet[i], |s.fleet[i].offer.value.profiles|, name)
  }

  /** The row is under the machine that will run it. */
  predicate Under(s: Source, k: Key, e: Entry) {
    match e.target
    case Local(n) => e.name == n && exists i :: 0 <= i < |s.profiles| && s.profiles[i].name == n && LocalKey(s, s.profiles[i]) == k
    case Remote(h, n) => e.name == n && k == HostKey(s, h)
  }

  ghost predicate Placed(s: Source, gs: seq<Group>) {
    && Sorted(gs) && NoneEmpty(gs)
    && forall k, i :: 0 <= i < |Listed(gs, k)| ==> Under(s, k, Listed(gs, k)[i])
  }

  predicate DistinctNames(s: Source) {
    forall i, j :: 0 <= i < j < |s.profiles| ==> s.profiles[i].name != s.profiles[j].name
  }

  /** One more entry where it belongs keeps everything placed. */
  lemma AddPlaced(s: Source, gs: seq<Group>, k: Key, e: Entry)
    requires Placed(s, gs) && Under(s, k, e)
    ensures Placed(s, Add(gs, k, e))
  {
    hide Under, Add, Listed, NoneEmpty, Sorted;
    AddKeeps(gs, k, e);
    var r := Add(gs, k, e);
    forall q, i | 0 <= i < |Listed(r, q)|
      ensures Under(s, q, Listed(r, q)[i])
    {
      if q == k && i == |Listed(gs, k)| {
      } else {
        assert Listed(r, q)[i] == Listed(gs, q)[i];
      }
    }
  }

  lemma NothingFiled(s: Source)
    ensures Placed(s, []) && (forall t :: Times([], t) == 0) && (forall k :: Listed([], k) == [])
  {}

  lemma {:induction false} LocalsPlaced(s: Source, n: nat)
    requires n <= |s.profiles|
    ensures Placed(s, WithLocals(s, n))
  {
    hide Add, Placed, BucketOf, CommandOf, LocalKey;
    NothingFiled(s);
    if n > 0 {
      LocalsPlaced(s, n - 1);
      var gs, p := WithLocals(s, n - 1), s.profiles[n - 1];
      assert Under(s, LocalKey(s, p), LocalEntry(s, p));
      AddPlaced(s, gs, LocalKey(s, p), LocalEntry(s, p));
    }
  }

  lemma {:induction false} LocalTimes(s: Source, n: nat, t: ProfileRef)
    requires n <= |s.profiles| && DistinctNames(s)
    ensures Times(WithLocals(s, n), t) == if t.Local? && HasLocal(s, n, t.name) then 1 else 0
  {
    hide Add, Times;
    NothingFiled(s);
    if n > 0 {
      LocalTimes(s, n - 1, t);
      var gs, p := WithLocals(s, n - 1), s.profiles[n - 1];
      LocalsPlaced(s, n - 1);
      AddKeeps(gs, LocalKey(s, p), LocalEntry(s, p));
      assert HasLocal(s, n, p.name);
      assert t.Local? ==> (HasLocal(s, n, t.name) <==> HasLocal(s, n - 1, t.name) || p.name == t.name);
      assert !HasLocal(s, n - 1, p.name);
    }
  }

  /** Among the first `n` local profiles, one of this name is pinned to the host. */
  predicate ClaimsAmong(s: Source, n: nat, id: HostId, name: string)
    requires n <= |s.profiles|
  {
    exists i :: 0 <= i < n && s.profiles[i].name == name && BucketOf(s.profiles[i], s.fleet) == On(id)
  }

  lemma {:induction false} LocalNames(s: Source, n: nat, id: HostId, name: string)
    requires n <= |s.profiles|
    ensures Named(Listed(WithLocals(s, n), HostKey(s, id)), name) <==> ClaimsAmong(s, n, id, name)
  {
    hide Add, Listed;
    NothingFiled(s);
    if n > 0 {
      LocalNames(s, n - 1, id, name);
      var gs, p := WithLocals(s, n - 1), s.profiles[n - 1];
      LocalsPlaced(s, n - 1);
      AddKeeps(gs, LocalKey(s, p), LocalEntry(s, p));
      KeysTellApart(BucketOf(p, s.fleet), On(id), s.fleet, s.short);
      NamedMore(Listed(gs, HostKey(s, id)), LocalEntry(s, p), name);
      assert ClaimsAmong(s, n, id, name) <==>
        ClaimsAmong(s, n - 1, id, name) || (p.name == name && BucketOf(p, s.fleet) == On(id));
    }
  }

  lemma NamedMore(entries: seq<Entry>, e: Entry, name: string)
    ensures Named(entries + [e], name) <==> Named(entries, name) || e.name == name
  {
    var more := entries + [e];
    assert more[|entries|] == e;
    if Named(entries, name) {
      var i :| 0 <= i < |entries| && entries[i].name == name;
      assert more[i].name == name;
    }
  }

  lemma PublishedIs(s: Source, gs: seq<Group>, h: Host, p: Published, shell: string)
    requires Placed(s, gs)
    ensures var k := HostKey(s, h.id);
      AddPublished(s, gs, h, p, shell)
        == if Named(Listed(gs, k), p.name) then gs else Add(gs, k, Entry(p.name, ShownCommand(p.command, shell), Remote(h.id, p.name)))
  {
    hide Touch, Listed, Add;
    var k := HostKey(s, h.id);
    TouchKeeps(gs, k);
    if Named(Listed(gs, k), p.name) {
      TouchOfListed(gs, k);
    }
  }

  lemma {:induction false} OfferPlaced(s: Source, gs: seq<Group>, h: Host, n: nat)
    requires h.offer.Some? && n <= |h.offer.value.profiles| && Placed(s, gs)
    ensures Placed(s, WithOffer(s, gs, h, n))
  {
    hide Add, Listed, AddPublished;
    if n > 0 {
      OfferPlaced(s, gs, h, n - 1);
      var p, shell := h.offer.value.profiles[n - 1], h.offer.value.shell;
      PublishedIs(s, WithOffer(s, gs, h, n - 1), h, p, shell);
      AddPlaced(s, WithOffer(s, gs, h, n - 1), HostKey(s, h.id), Entry(p.name, ShownCommand(p.command, shell), Remote(h.id, p.name)));
    }
  }

  lemma {:induction false} OfferNames(s: Source, gs: seq<Group>, h: Host, n: nat, id: HostId, name: string)
    requires h.offer.Some? && n <= |h.offer.value.profiles| && Placed(s, gs)
    ensures Named(Listed(WithOffer(s, gs, h, n), HostKey(s, id)), name)
      <==> Named(Listed(gs, HostKey(s, id)), name) || (id == h.id && Offers(h, n, name))
  {
    hide Add, Listed, AddPublished, Named;
    if n > 0 {
      var p, shell := h.offer.value.profiles[n - 1], h.offer.value.shell;
      var before := WithOffer(s, gs, h, n - 1);
      var e := Entry(p.name, ShownCommand(p.command, shell), Remote(h.id, p.name));
      OfferPlaced(s, gs, h, n - 1);
      OfferNames(s, gs, h, n - 1, id, name);
      PublishedIs(s, before, h, p, shell);
      AddKeeps(before, HostKey(s, h.id), e);
      NamedMore(Listed(before, HostKey(s, h.id)), e, name);
      KeysTellApart(On(id), On(h.id), s.fleet, s.short);
      assert Offers(h, n, name) <==> Offers(h, n - 1, name) || p.name == name;
    }
  }

  lemma {:induction false} OfferTimes(s: Source, gs: seq<Group>, h: Host, n: nat, t: ProfileRef)
    requires h.offer.Some? && n <= |h.offer.value.profiles| && Placed(s, gs)
    ensures Times(WithOffer(s, gs, h, n), t) == Times(gs, t) +
      (if t.Remote? && t.host == h.id && Offers(h, n, t.name) && !Named(Listed(gs, HostKey(s, h.id)), t.name) then 1 else 0)
  {
    hide Add, Listed, AddPublished, Named, Times;
    if n > 0 {
      var p, shell := h.offer.value.profiles[n - 1], h.offer.value.shell;
      var before := WithOffer(s, gs, h, n - 1);
      var e := Entry(p.name, ShownCommand(p.command, shell), Remote(h.id, p.name));
      OfferPlaced(s, gs, h, n - 1);
      OfferNames(s, gs, h, n - 1, h.id, p.name);
      OfferTimes(s, gs, h, n - 1, t);
      PublishedIs(s, before, h, p, shell);
      AddKeeps(before, HostKey(s, h.id), e);
      assert t.Remote? ==> (Offers(h, n, t.name) <==> Offers(h, n - 1, t.name) || p.name == t.name);
    }
  }

  lemma {:induction false} FleetPlaced(s: Source, n: nat)
    requires n <= |s.fleet|
    ensures Placed(s, WithFleet(s, n))
  {
    hide Placed, WithOffer;
    if n == 0 {
      LocalsPlaced(s, |s.profiles|);
    } else {
      FleetPlaced(s, n - 1);
      if Publishes(s.fleet[n - 1]) {
        OfferPlaced(s, WithFleet(s, n - 1), s.fleet[n - 1], |s.fleet[n - 1].offer.value.profiles|);
      }
    }
  }

  lemma NobodyPublishing(s: Source, id: HostId, name: string)
    ensures !Publishing(s, 0, id, name)
  {}

  lemma PublishingMore(s: Source, n: nat, id: HostId, name: string)
    requires 0 < n <= |s.fleet|
    ensures var h := s.fleet[n - 1];
      Publishing(s, n, id, name) <==>
        (Publishing(s, n - 1, id, name) || (Publishes(h) && h.id == id && Offers(h, |h.offer.value.profiles|, name)))
  {
    hide Offers;
  }

  lemma {:induction false} FleetNames(s: Source, n: nat, id: HostId, name: string)
    requires n <= |s.fleet|
    ensures Named(Listed(WithFleet(s, n), HostKey(s, id)), name) <==> Claims(s, id, name) || Publishing(s, n, id, name)
  {
    hide Placed, WithOffer, Listed, Named, Offers, Publishing;
    if n == 0 {
      LocalNames(s, |s.profiles|, id, name);
      NobodyPublishing(s, id, name);
    } else {
      FleetNames(s, n - 1, id, name);
      FleetPlaced(s, n - 1);
      PublishingMore(s, n, id, name);
      var h := s.fleet[n - 1];
      if Publishes(h) {
        OfferNames(s, WithFleet(s, n - 1), h, |h.offer.value.profiles|, id, name);
      }
    }
  }

  lemma {:induction false} FleetTimes(s: Source, n: nat, t: ProfileRef)
    requires n <= |s.fleet| && DistinctNames(s)
    ensures Times(WithFleet(s, n), t) ==
      match t
      case Local(name) => if HasLocal(s, |s.profiles|, name) then 1 else 0
      case Remote(id, name) => if Publishing(s, n, id, name) && !Claims(s, id, name) then 1 else 0
  {
    hide Placed, WithOffer, Listed, Named, Times, Offers, Claims, Publishing, HasLocal;
    if n == 0 {
      LocalTimes(s, |s.profiles|, t);
      if t.Remote? {
        NobodyPublishing(s, t.host, t.name);
      }
    } else {
      FleetTimes(s, n - 1, t);
      FleetPlaced(s, n - 1);
      var h := s.fleet[n - 1];
      if t.Remote? {
        PublishingMore(s, n, t.host, t.name);
        FleetNames(s, n - 1, t.host, t.name);
      }
      if Publishes(h) {
        OfferTimes(s, WithFleet(s, n - 1), h, |h.offer.value.profiles|, t);
      }
    }
  }
}
