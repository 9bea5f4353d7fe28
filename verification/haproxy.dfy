/** The owned HAProxy configuration: its printer, its reader, and planning against the sockets it opened itself. */
module Haproxy {
  import opened Wrappers
  import opened Prefixes
  import opened Ports
  import opened Inventory

  const MAXIMUM_FRONTENDS: nat := 128

  datatype Frontend = Frontend(id: nat, bind: Addr, port: Port, enabled: bool, backends: seq<nat>)

  /** A socket the configuration binds. */
  datatype Socket = Socket(addr: Addr, port: Port)

  /** One line: a frontend with an owned or another name, a `bind` (unreadable if `None`), a new section, anything else. */
  datatype Line = FrontendLine(owned: bool, id: nat) | BindLine(target: Option<Socket>) | SectionLine | OtherLine

  // ---------------------------------------------------------------- printing and reading

  /** Lines that carry nothing the reader looks at. */
  function Others(n: nat): seq<Line> {
    if n == 0 then [] else [OtherLine] + Others(n - 1)
  }

  /** A comment, the global section, and the defaults. */
  function Header(): seq<Line> {
    [OtherLine, SectionLine] + Others(3) + [SectionLine] + Others(4)
  }

  function FrontendLines(f: Frontend): seq<Line> {
    [FrontendLine(true, f.id), BindLine(Some(Socket(f.bind, f.port))), OtherLine, SectionLine, OtherLine] + Others(|f.backends|)
  }

  function AllFrontendLines(fs: seq<Frontend>): seq<Line> {
    if fs == [] then [] else (if fs[0].enabled then FrontendLines(fs[0]) else []) + AllFrontendLines(fs[1..])
  }

  function Rendered(fs: seq<Frontend>): seq<Line> {
    Header() + AllFrontendLines(fs) + [OtherLine]
  }

  lemma Regroup(done: seq<Line>, next: seq<Line>, rest: seq<Line>)
    ensures done + (next + rest) == (done + next) + rest && done + [] == done && [] + rest == rest
  {
  }

  method Render(fs: seq<Frontend>) returns (lines: seq<Line>)
    ensures lines == Rendered(fs)
  {
    lines := Header();
    for i := 0 to |fs|
      invariant Header() + AllFrontendLines(fs) == lines + AllFrontendLines(fs[i..])
    {
      assert fs[i..][0] == fs[i] && fs[i..][1..] == fs[i + 1..];
      var next := [];
      if fs[i].enabled {
        next := [FrontendLine(true, fs[i].id), BindLine(Some(Socket(fs[i].bind, fs[i].port))), OtherLine, SectionLine, OtherLine];
        next := next + Others(|fs[i].backends|);
      }
      Regroup(lines, next, AllFrontendLines(fs[i + 1..]));
      lines := lines + next;
    }
    Regroup(lines, [], []);
    lines := lines + [OtherLine];
  }

  /** Reading from inside or outside an owned frontend, after `count` sockets; `None` is an error. */
  function Read(lines: seq<Line>, inOwned: bool, count: nat): Option<seq<Socket>> {
    if lines == [] then Some([])
    else
      match lines[0]
      case FrontendLine(owned, _) => Read(lines[1..], owned, count)
      case SectionLine => Read(lines[1..], false, count)
      case BindLine(t) =>
        if !inOwned then Read(lines[1..], inOwned, count)
        else if t.None? || t.value.port == 0 || count + 1 > MAXIMUM_FRONTENDS then None
        else
          var rest := Read(lines[1..], inOwned, count + 1);
          if rest.None? then None else Some([t.value] + rest.value)
      case OtherLine => Read(lines[1..], inOwned, count)
  }

  function Prepend(found: seq<Socket>, rest: Option<seq<Socket>>): Option<seq<Socket>> {
    if rest.None? then None else Some(found + rest.value)
  }

  lemma PrependTwice(found: seq<Socket>, next: seq<Socket>, rest: Option<seq<Socket>>)
    ensures Prepend(found, Prepend(next, rest)) == Prepend(found + next, rest)
    ensures Prepend([], rest) == rest && Prepend(found, Some([])) == Some(found)
  {
    assert rest.Some? ==> found + (next + rest.value) == (found + next) + rest.value && [] + rest.value == rest.value;
    assert found + [] == found;
  }

  /** The reader keeps a flag for being inside an owned frontend. */
  method ParseState(lines: seq<Line>) returns (r: Option<seq<Socket>>)
    ensures r == Read(lines, false, 0)
  {
    var inOwned, found: seq<Socket> := false, [];
    PrependTwice([], [], Read(lines, false, 0));
    assert lines[0..] == lines;
    for i := 0 to |lines|
      invariant Prepend(found, Read(lines[i..], inOwned, |found|)) == Read(lines, false, 0)
    {
      assert lines[i..][0] == lines[i] && lines[i..][1..] == lines[i + 1..];
      match lines[i] {
        case FrontendLine(owned, _) =>
          inOwned := owned;
        case SectionLine =>
          inOwned := false;
        case BindLine(t) =>
          if inOwned {
            if t.None? || t.value.port == 0 {
              return None;
            }
            PrependTwice(found, [t.value], Read(lines[i + 1..], inOwned, |found| + 1));
            found := found + [t.value];
            if |found| > MAXIMUM_FRONTENDS {
              return None;
            }
          }
        case OtherLine =>
      }
    }
    PrependTwice(found, [], Some([]));
    return Some(found);
  }

  function Sockets(fs: seq<Frontend>): seq<Socket> {
    if fs == [] then [] else (if fs[0].enabled then [Socket(fs[0].bind, fs[0].port)] else []) + Sockets(fs[1..])
  }

  lemma {:induction false} ReadOthers(n: nat, rest: seq<Line>, inOwned: bool, count: nat)
    ensures Read(Others(n) + rest, inOwned, count) == Read(rest, inOwned, count)
    decreases n
  {
    if n == 0 {
      assert Others(n) + rest == rest;
    } else {
      assert Others(n) + rest == [OtherLine] + (Others(n - 1) + rest);
      ReadNext(OtherLine, Others(n - 1) + rest, inOwned, count);
      ReadOthers(n - 1, rest, inOwned, count);
    }
  }

  /** What one line does to the reader. */
  lemma ReadNext(line: Line, rest: seq<Line>, inOwned: bool, count: nat)
    ensures line == OtherLine ==> Read([line] + rest, inOwned, count) == Read(rest, inOwned, count)
    ensures line == SectionLine ==> Read([line] + rest, inOwned, count) == Read(rest, false, count)
    ensures line.FrontendLine? ==> Read([line] + rest, inOwned, count) == Read(rest, line.owned, count)
    ensures line.BindLine? && line.target.Some? && line.target.value.port != 0 && inOwned && count < MAXIMUM_FRONTENDS ==>
      Read([line] + rest, inOwned, count) == Prepend([line.target.value], Read(rest, inOwned, count + 1))
  {
    assert ([line] + rest)[1..] == rest;
  }

  lemma ReadFrontend(f: Frontend, rest: seq<Line>, inOwned: bool, count: nat)
    requires f.port != 0 && count < MAXIMUM_FRONTENDS
    ensures Read(FrontendLines(f) + rest, inOwned, count) == Prepend([Socket(f.bind, f.port)], Read(rest, false, count + 1))
  {
    var tail := Others(|f.backends|) + rest;
    var bind := BindLine(Some(Socket(f.bind, f.port)));
    assert FrontendLines(f) + rest == [FrontendLine(true, f.id)] + ([bind] + ([OtherLine] + ([SectionLine] + ([OtherLine] + tail))));
    ReadNext(FrontendLine(true, f.id), [bind] + ([OtherLine] + ([SectionLine] + ([OtherLine] + tail))), inOwned, count);
    ReadNext(bind, [OtherLine] + ([SectionLine] + ([OtherLine] + tail)), true, count);
    ReadNext(OtherLine, [SectionLine] + ([OtherLine] + tail), true, count + 1);
    ReadNext(SectionLine, [OtherLine] + tail, true, count + 1);
    ReadNext(OtherLine, tail, false, count + 1);
    ReadOthers(|f.backends|, rest, false, count + 1);
  }

  lemma {:induction false} ReadFrontends(fs: seq<Frontend>, inOwned: bool, count: nat)
    requires (forall i | 0 <= i < |fs| :: fs[i].port != 0) && count + |Sockets(fs)| <= MAXIMUM_FRONTENDS
    ensures Read(AllFrontendLines(fs) + [OtherLine], inOwned, count) == Some(Sockets(fs))
    decreases |fs|
  {
    if fs == [] {
      assert [OtherLine][1..] == [] && [] + [OtherLine] == [OtherLine];
    } else {
      var rest := AllFrontendLines(fs[1..]) + [OtherLine];
      if fs[0].enabled {
        assert AllFrontendLines(fs) + [OtherLine] == FrontendLines(fs[0]) + rest;
        ReadFrontend(fs[0], rest, inOwned, count);
        ReadFrontends(fs[1..], false, count + 1);
      } else {
        assert AllFrontendLines(fs) + [OtherLine] == rest && Sockets(fs) == Sockets(fs[1..]);
        ReadFrontends(fs[1..], inOwned, count);
      }
    }
  }

  /** Reading what was printed gives back exactly the sockets of the enabled frontends, in order. */
  lemma {:induction false} ReadOfRendered(fs: seq<Frontend>)
    requires (forall i | 0 <= i < |fs| :: fs[i].port != 0) && |fs| <= MAXIMUM_FRONTENDS
    ensures Read(Rendered(fs), false, 0) == Some(Sockets(fs))
  {
    var rest := AllFrontendLines(fs) + [OtherLine];
    var defaults := [SectionLine] + (Others(4) + rest);
    assert Rendered(fs) == [OtherLine] + ([SectionLine] + (Others(3) + defaults));
    ReadNext(OtherLine, [SectionLine] + (Others(3) + defaults), false, 0);
    ReadNext(SectionLine, Others(3) + defaults, false, 0);
    ReadOthers(3, defaults, false, 0);
    ReadNext(SectionLine, Others(4) + rest, false, 0);
    ReadOthers(4, rest, false, 0);
    SocketsAreFewer(fs);
    ReadFrontends(fs, false, 0);
  }

  lemma {:induction false} SocketsAreFewer(fs: seq<Frontend>)
    ensures |Sockets(fs)| <= |fs|
    decreases |fs|
  {
    if fs != [] {
      SocketsAreFewer(fs[1..]);
    }
  }

  // ---------------------------------------------------------------- planning

  /** How the listing tool prints a socket's address: an address, or `*`. */
  datatype Shown = Star | ByAddress(addr: Addr)

  datatype ListedSocket = ListedSocket(haproxy: bool, protocol: Option<Protocol>, shown: Shown, port: Port)

  /** A socket in the inventory, which is all that planning sees. */
  datatype HostSocket = HostSocket(haproxy: bool, protocol: Option<Protocol>, addr: Addr, port: Port)

  /** The inventory puts 0.0.0.0 for `*`. */
  function Inventoried(l: ListedSocket): HostSocket {
    HostSocket(l.haproxy, l.protocol, if l.shown.Star? then Addr(V4, 0) else l.shown.addr, l.port)
  }

  function InventoryOf(ls: seq<ListedSocket>): seq<HostSocket> {
    seq(|ls|, i requires 0 <= i < |ls| => Inventoried(ls[i]))
  }

  /** An unspecified address listens on all of them. */
  function BindOf(a: Addr): BindAddress {
    if Unspecified(a) then Wildcard else Host(a)
  }

  function ListenerOf(l: HostSocket): Listener {
    Listener(l.protocol, BindOf(l.addr), l.port)
  }

  function BindingOf(f: Frontend): Binding {
    Binding(Some(Tcp), BindOf(f.bind), f.port)
  }

  /** A socket of the owned process at an address the present configuration binds. */
  predicate OwnSocket(l: HostSocket, owned: seq<Socket>) {
    l.haproxy && l.protocol == Some(Tcp) && Socket(l.addr, l.port) in owned
  }

  function FilterOwned(ls: seq<HostSocket>, owned: seq<Socket>): seq<HostSocket> {
    if ls == [] then [] else (if OwnSocket(ls[0], owned) then [] else [ls[0]]) + FilterOwned(ls[1..], owned)
  }

  lemma {:induction false} FilterOwnedMembers(ls: seq<HostSocket>, owned: seq<Socket>)
    ensures forall l :: l in FilterOwned(ls, owned) <==> l in ls && !OwnSocket(l, owned)
  {
    if ls != [] {
      FilterOwnedMembers(ls[1..], owned);
      assert forall l :: l in ls <==> l == ls[0] || l in ls[1..];
    }
  }

  function Listeners(ls: seq<HostSocket>): seq<Listener> {
    seq(|ls|, i requires 0 <= i < |ls| => ListenerOf(ls[i]))
  }

  predicate HasBackend(f: Frontend, backends: map<nat, bool>) {
    (forall i | 0 <= i < |f.backends| :: f.backends[i] in backends)
    && (f.enabled ==> exists i | 0 <= i < |f.backends| :: f.backends[i] in backends && backends[f.backends[i]])
  }

  ghost predicate Clashing(f: Frontend, g: Frontend) {
    f.enabled && g.enabled && Clash(BindingOf(g), Listener(Some(Tcp), BindOf(f.bind), f.port))
  }

  /** No enabled frontend takes a socket that somebody else holds. */
  ghost predicate Undisturbed(fs: seq<Frontend>, ls: seq<HostSocket>) {
    forall i, k | 0 <= i < |fs| && fs[i].enabled && 0 <= k < |ls| :: !Clash(BindingOf(fs[i]), ListenerOf(ls[k]))
  }

  ghost predicate Plannable(fs: seq<Frontend>, backends: map<nat, bool>, protected: set<Port>) {
    && |fs| <= MAXIMUM_FRONTENDS
    && (forall i | 0 <= i < |fs| :: fs[i].port != 0 && HasBackend(fs[i], backends) && (fs[i].enabled ==> fs[i].port !in protected))
    && (forall i, j | 0 <= i < j < |fs| :: fs[i].id != fs[j].id && !Clashing(fs[i], fs[j]))
  }

  method BackendsOf(f: Frontend, backends: map<nat, bool>) returns (ok: bool)
    ensures ok <==> HasBackend(f, backends)
  {
    var enabled := 0;
    for i := 0 to |f.backends|
      invariant forall j | 0 <= j < i :: f.backends[j] in backends
      invariant enabled > 0 <==> exists j | 0 <= j < i :: f.backends[j] in backends && backends[f.backends[j]]
    {
      if f.backends[i] !in backends {
        return false;
      }
      if backends[f.backends[i]] {
        enabled := enabled + 1;
      }
    }
    return !f.enabled || enabled > 0;
  }

  /** Whether a binding clashes with any of the listeners. */
  method Conflicts(b: Binding, listeners: seq<Listener>) returns (clash: bool)
    requires ValidBinding(b)
    ensures clash <==> exists k | 0 <= k < |listeners| :: Clash(b, listeners[k])
  {
    var r := DetectConflicts([b], listeners);
    assert forall x | x in [b] :: x == b;
    clash := |r.value| > 0;
    if clash {
      var c := r.value[0];
      assert c in r.value;
      var k :| 0 <= k < |listeners| && listeners[k] == c.existing;
    } else {
      forall k | 0 <= k < |listeners| ensures !Clash(b, listeners[k]) {
        assert b in [b] && listeners[k] in listeners;
        assert Conflict(b, listeners[k]) !in r.value;
      }
    }
  }

  /** `desired` lists the sockets of the enabled frontends before `i`. */
  ghost predicate Lists(fs: seq<Frontend>, i: nat, desired: seq<Listener>)
    requires i <= |fs|
  {
    forall l :: l in desired <==> exists j | 0 <= j < i :: fs[j].enabled && l == Listener(Some(Tcp), BindOf(fs[j].bind), fs[j].port)
  }

  lemma DesiredClash(fs: seq<Frontend>, i: nat, desired: seq<Listener>)
    requires i < |fs| && fs[i].enabled && Lists(fs, i, desired)
    ensures (exists k | 0 <= k < |desired| :: Clash(BindingOf(fs[i]), desired[k])) <==> exists j | 0 <= j < i :: Clashing(fs[j], fs[i])
  {
    if k :| 0 <= k < |desired| && Clash(BindingOf(fs[i]), desired[k]) {
      assert desired[k] in desired;
      var j :| 0 <= j < i && fs[j].enabled && desired[k] == Listener(Some(Tcp), BindOf(fs[j].bind), fs[j].port);
      assert Clashing(fs[j], fs[i]);
    }
    if j :| 0 <= j < i && Clashing(fs[j], fs[i]) {
      var l := Listener(Some(Tcp), BindOf(fs[j].bind), fs[j].port);
      assert l in desired;
      var k :| 0 <= k < |desired| && desired[k] == l;
    }
  }

  /** Each frontend in turn, against the ones before it and against the host without the sockets already owned. */
  method BuildPlan(fs: seq<Frontend>, backends: map<nat, bool>, protected: set<Port>, ls: seq<HostSocket>, owned: seq<Socket>) returns (ok: bool)
    ensures ok <==> Plannable(fs, backends, protected) && Undisturbed(fs, FilterOwned(ls, owned))
  {
    if |fs| > MAXIMUM_FRONTENDS {
      return false;
    }
    var ids: set<nat>, desired: seq<Listener> := {}, [];
    var filtered := FilterOwned(ls, owned);
    for i := 0 to |fs|
      invariant Plannable(fs[..i], backends, protected) && Undisturbed(fs[..i], filtered)
      invariant forall n :: n in ids <==> exists j | 0 <= j < i :: fs[j].id == n
      invariant Lists(fs, i, desired)
    {
      var f := fs[i];
      assert fs[..i + 1] == fs[..i] + [f];
      if f.port == 0 || f.id in ids {
        return false;
      }
      ids := ids + {f.id};
      var reachable := BackendsOf(f, backends);
      if !reachable {
        return false;
      }
      if f.enabled {
        if f.port in protected {
          return false;
        }
        var overlap := Conflicts(BindingOf(f), desired);
        DesiredClash(fs, i, desired);
        if overlap {
          return false;
        }
        var taken := Conflicts(BindingOf(f), Listeners(filtered));
        if taken {
          return false;
        }
        assert forall k | 0 <= k < |filtered| :: Listeners(filtered)[k] == ListenerOf(filtered[k]);
        desired := desired + [Listener(Some(Tcp), BindOf(f.bind), f.port)];
      }
    }
    assert fs[..|fs|] == fs;
    return true;
  }

  // ---------------------------------------------------------------- planning again after an apply

  /** The listing of the sockets the process opened for a configuration; one on all addresses may be printed as `*`. */
  predicate OpenedFor(bound: seq<ListedSocket>, sockets: seq<Socket>) {
    && |bound| == |sockets|
    && forall k | 0 <= k < |bound| ::
         && bound[k].haproxy && bound[k].protocol == Some(Tcp) && bound[k].port == sockets[k].port
         && (bound[k].shown == ByAddress(sockets[k].addr) || (bound[k].shown == Star && Unspecified(sockets[k].addr)))
  }

  /** No frontend on `::` has its socket printed as `*`. */
  predicate NoDualStack(bound: seq<ListedSocket>, sockets: seq<Socket>)
    requires |bound| == |sockets|
  {
    forall k | 0 <= k < |bound| :: !(bound[k].shown.Star? && sockets[k].addr.family == V6)
  }

  lemma {:induction false} SocketOwner(fs: seq<Frontend>, k: nat) returns (i: nat)
    requires k < |Sockets(fs)|
    ensures i < |fs| && fs[i].enabled && Sockets(fs)[k] == Socket(fs[i].bind, fs[i].port)
    decreases |fs|
  {
    var skipped := if fs[0].enabled then 1 else 0;
    if k < skipped {
      i := 0;
    } else {
      i := SocketOwner(fs[1..], k - skipped);
      i := i + 1;
    }
  }

  /** Two enabled frontends of an accepted plan do not both listen on all addresses of one port. */
  lemma OneWildcard(fs: seq<Frontend>, backends: map<nat, bool>, protected: set<Port>, i: nat, j: nat)
    requires Plannable(fs, backends, protected) && i < |fs| && j < |fs| && fs[i].enabled && fs[j].enabled
    requires Unspecified(fs[i].bind) && Unspecified(fs[j].bind) && fs[i].bind != fs[j].bind
    ensures fs[i].port != fs[j].port
  {
    assert AddressesOverlap(BindOf(fs[i].bind), BindOf(fs[j].bind)) && AddressesOverlap(BindOf(fs[j].bind), BindOf(fs[i].bind));
    assert i < j ==> !Clashing(fs[i], fs[j]);
    assert j < i ==> !Clashing(fs[j], fs[i]);
  }

  lemma OtherWildcardIsFree(fs: seq<Frontend>, backends: map<nat, bool>, protected: set<Port>, k: nat)
    requires Plannable(fs, backends, protected) && k < |Sockets(fs)| && Sockets(fs)[k].addr == Addr(V6, 0)
    ensures Socket(Addr(V4, 0), Sockets(fs)[k].port) !in Sockets(fs)
  {
    var i := SocketOwner(fs, k);
    forall l | 0 <= l < |Sockets(fs)| ensures Sockets(fs)[l] != Socket(Addr(V4, 0), Sockets(fs)[k].port) {
      var j := SocketOwner(fs, l);
      if fs[j].bind == Addr(V4, 0) {
        OneWildcard(fs, backends, protected, i, j);
      }
    }
  }

  lemma OwnIsRecognised(bound: seq<ListedSocket>, owned: seq<Socket>, k: nat)
    requires OpenedFor(bound, owned) && k < |bound| && !(bound[k].shown.Star? && owned[k].addr.family == V6)
    ensures OwnSocket(Inventoried(bound[k]), owned)
  {
    assert Socket(Inventoried(bound[k]).addr, bound[k].port) == owned[k];
  }

  /**
   * After a plan was applied, planning the same frontends again meets no conflict with the sockets it opened itself
   * exactly when no enabled frontend on `::` has its socket printed as `*`: the inventory turns that into 0.0.0.0,
   * which is not the bound address, and still overlaps it.
   */
  lemma {:induction false} NoSelfConflictIff(fs: seq<Frontend>, backends: map<nat, bool>, protected: set<Port>, others: seq<ListedSocket>,
    bound: seq<ListedSocket>)
    requires Plannable(fs, backends, protected) && Undisturbed(fs, InventoryOf(others)) && OpenedFor(bound, Sockets(fs))
    ensures Undisturbed(fs, FilterOwned(InventoryOf(others + bound), Sockets(fs))) <==> NoDualStack(bound, Sockets(fs))
  {
    var owned, all := Sockets(fs), InventoryOf(others + bound);
    var left := FilterOwned(all, owned);
    FilterOwnedMembers(all, owned);
    if NoDualStack(bound, owned) {
      forall i, k | 0 <= i < |fs| && fs[i].enabled && 0 <= k < |left| ensures !Clash(BindingOf(fs[i]), ListenerOf(left[k])) {
        assert left[k] in left;
        var m := LeftIsOther(others, bound, owned, left[k]);
      }
    }
    if k :| 0 <= k < |bound| && bound[k].shown.Star? && owned[k].addr.family == V6 {
      DualStackClashes(fs, backends, protected, others, bound, k);
    }
  }

  lemma LeftIsOther(others: seq<ListedSocket>, bound: seq<ListedSocket>, owned: seq<Socket>, l: HostSocket) returns (m: nat)
    requires OpenedFor(bound, owned) && NoDualStack(bound, owned)
    requires l in InventoryOf(others + bound) && !OwnSocket(l, owned)
    ensures m < |others| && InventoryOf(others)[m] == l
  {
    var all := others + bound;
    forall n | |others| <= n < |all| ensures OwnSocket(InventoryOf(all)[n], owned) {
      OwnIsRecognised(bound, owned, n - |others|);
    }
    m :| 0 <= m < |all| && InventoryOf(all)[m] == l;
  }

  lemma DualStackClashes(fs: seq<Frontend>, backends: map<nat, bool>, protected: set<Port>, others: seq<ListedSocket>, bound: seq<ListedSocket>, k: nat)
    requires Plannable(fs, backends, protected) && OpenedFor(bound, Sockets(fs))
    requires k < |bound| && bound[k].shown.Star? && Sockets(fs)[k].addr.family == V6
    ensures !Undisturbed(fs, FilterOwned(InventoryOf(others + bound), Sockets(fs)))
  {
    var owned, all := Sockets(fs), InventoryOf(others + bound);
    var left := FilterOwned(all, owned);
    FilterOwnedMembers(all, owned);
    OtherWildcardIsFree(fs, backends, protected, k);
    assert all[|others| + k] == Inventoried((others + bound)[|others| + k]) == Inventoried(bound[k]);
    assert Inventoried(bound[k]) in left;
    var m :| 0 <= m < |left| && left[m] == Inventoried(bound[k]);
    var i := SocketOwner(fs, k);
    assert AddressesOverlap(BindingOf(fs[i]).address, ListenerOf(left[m]).address);
    assert Clash(BindingOf(fs[i]), ListenerOf(left[m]));
  }

  /** A single frontend on `::`, printed as `*` once it listens: the same plan is refused from then on. */
  lemma DualStackIsRefused(f: Frontend, backends: map<nat, bool>, protected: set<Port>)
    requires Plannable([f], backends, protected) && f.enabled && f.bind == Addr(V6, 0)
    ensures OpenedFor([ListedSocket(true, Some(Tcp), Star, f.port)], Sockets([f]))
    ensures Undisturbed([f], FilterOwned(InventoryOf([]), Sockets([f])))
    ensures !Undisturbed([f], FilterOwned(InventoryOf([ListedSocket(true, Some(Tcp), Star, f.port)]), Sockets([f])))
  {
    var bound := [ListedSocket(true, Some(Tcp), Star, f.port)];
    assert [f][1..] == [] && Sockets([f]) == [Socket(f.bind, f.port)];
    assert [] + bound == bound;
    DualStackClashes([f], backends, protected, [], bound, 0);
  }

  /** A single frontend on 0.0.0.0 is recognised, even if it is printed as `*`. */
  lemma WildcardIsRecognised(f: Frontend)
    requires f.enabled && f.bind == Addr(V4, 0)
    ensures FilterOwned(InventoryOf([ListedSocket(true, Some(Tcp), Star, f.port)]), Sockets([f])) == []
  {
    var bound := [ListedSocket(true, Some(Tcp), Star, f.port)];
    assert [f][1..] == [] && Sockets([f]) == [Socket(f.bind, f.port)];
    OwnIsRecognised(bound, Sockets([f]), 0);
    assert InventoryOf(bound)[1..] == [];
  }
}
