// Endpoint configuration (config/config.go:13-17, 78-120): how listed URLs become named endpoints.
module Config {
  import opened GoTypes

  datatype EndpointConfig = EndpointConfig(url: string, name: string, weight: int)

  /** One comma-separated part of RPC_ENDPOINTS, as trimming and URL parsing classify it. */
  datatype Part =
    | Blank
    | Malformed
    | WrongScheme
    | NoHost
    | Usable(url: string, host: string)

  datatype ConfigError = Required | InvalidURL | SchemeMustBeHTTP | MissingHost | NoUsableURLs

  // ---- Decimal numbers, as %d prints them ----

  function Digit(d: nat): char
    requires d < 10
  {
    "0123456789"[d]
  }

  function Decimal(n: nat): (r: string)
    ensures |r| >= 1 && '-' !in r
  {
    if n < 10 then [Digit(n)] else Decimal(n / 10) + [Digit(n % 10)]
  }

  lemma {:induction false} DecimalInjective(m: nat, n: nat)
    requires Decimal(m) == Decimal(n)
    ensures m == n
  {
    var a, b := Decimal(m), Decimal(n);
    if m >= 10 && n >= 10 {
      assert a[..|a| - 1] == Decimal(m / 10) && b[..|b| - 1] == Decimal(n / 10);
      DecimalInjective(m / 10, n / 10);
      assert a[|a| - 1] == Digit(m % 10) && b[|b| - 1] == Digit(n % 10);
    }
  }

  // ---- Names ----

  function Count(hosts: seq<string>, h: string): nat {
    if hosts == [] then 0
    else Count(hosts[..|hosts| - 1], h) + if hosts[|hosts| - 1] == h then 1 else 0
  }

  /** Which occurrence of its host entry k is, counting from 1. */
  function Occurrence(hosts: seq<string>, k: nat): (n: nat)
    requires k < |hosts|
    ensures n >= 1
  {
    Count(hosts[..k], hosts[k]) + 1
  }

  function Numbered(h: string, n: nat): string {
    h + "-" + Decimal(n)
  }

  /** The host itself for its first occurrence, and the host with a number for later ones. */
  function Name(hosts: seq<string>, k: nat): string
    requires k < |hosts|
  {
    var n := Occurrence(hosts, k);
    if n == 1 then hosts[k] else Numbered(hosts[k], n)
  }

  function FirstFault(parts: seq<Part>): Option<ConfigError> {
    if parts == [] then None
    else
      var fault := FirstFault(parts[..|parts| - 1]);
      if fault.Some? then fault
      else
        match parts[|parts| - 1]
        case Malformed => Some(InvalidURL)
        case WrongScheme => Some(SchemeMustBeHTTP)
        case NoHost => Some(MissingHost)
        case _ => None
  }

  /** The usable parts, in input order. */
  function UsableParts(parts: seq<Part>): (r: seq<Part>)
    ensures forall k | 0 <= k < |r| :: r[k].Usable?
  {
    if parts == [] then []
    else
      var last := parts[|parts| - 1];
      UsableParts(parts[..|parts| - 1]) + if last.Usable? then [last] else []
  }

  function Hosts(parts: seq<Part>): (r: seq<string>)
    requires forall k | 0 <= k < |parts| :: parts[k].Usable?
    ensures |r| == |parts|
  {
    seq(|parts|, k requires 0 <= k < |parts| => parts[k].host)
  }

  /** The configured endpoints of usable parts. */
  function Entries(usable: seq<Part>): (r: seq<EndpointConfig>)
    requires forall k | 0 <= k < |usable| :: usable[k].Usable?
    ensures |r| == |usable|
  {
    seq(|usable|, k requires 0 <= k < |usable| => EndpointConfig(usable[k].url, Name(Hosts(usable), k), 1))
  }

  /** The map counts how often each host was seen. */
  ghost predicate Tallies(seen: map<string, nat>, hosts: seq<string>) {
    forall h :: (if h in seen then seen[h] else 0) == Count(hosts, h)
  }

  /** parseEndpoints on the parts of the list; no parts stand for a blank variable. */
  method ParseEndpoints(parts: seq<Part>) returns (r: Result<seq<EndpointConfig>, ConfigError>)
    ensures var usable, fault := UsableParts(parts), FirstFault(parts);
            r == if parts == [] then Err(Required)
                 else if fault.Some? then Err(fault.value)
                 else if usable == [] then Err(NoUsableURLs)
                 else Ok(Entries(usable))
  {
    if parts == [] {
      return Err(Required);
    }
    var out: seq<EndpointConfig> := [];
    var seen: map<string, nat> := map[];
    for i := 0 to |parts|
      invariant FirstFault(parts[..i]) == None
      invariant out == Entries(UsableParts(parts[..i]))
      invariant Tallies(seen, Hosts(UsableParts(parts[..i])))
    {
      assert parts[..i + 1][..i] == parts[..i];
      FaultsStay(parts, i + 1);
      ghost var usable := UsableParts(parts[..i]);
      assert UsableParts(parts[..i + 1]) == if parts[i].Usable? then usable + [parts[i]] else usable;
      match parts[i] {
        case Blank =>
        case Malformed => return Err(InvalidURL);
        case WrongScheme => return Err(SchemeMustBeHTTP);
        case NoHost => return Err(MissingHost);
        case Usable(url, host) =>
          OneMoreEntry(usable, parts[i], seen);
          var name := host;
          seen := seen[host := (if host in seen then seen[host] else 0) + 1];
          var n := seen[host];
          if n > 1 {
            name := host + "-" + Decimal(n);
          }
          out := out + [EndpointConfig(url, name, 1)];
      }
    }
    assert parts[..|parts|] == parts;
    if |out| == 0 {
      return Err(NoUsableURLs);
    }
    return Ok(out);
  }

  lemma OneMoreEntry(usable: seq<Part>, u: Part, seen: map<string, nat>)
    requires u.Usable? && forall k | 0 <= k < |usable| :: usable[k].Usable?
    requires Tallies(seen, Hosts(usable))
    ensures var n := (if u.host in seen then seen[u.host] else 0) + 1;
            && Tallies(seen[u.host := n], Hosts(usable + [u]))
            && Entries(usable + [u]) ==
               Entries(usable) + [EndpointConfig(u.url, if n > 1 then Numbered(u.host, n) else u.host, 1)]
  {
    NamesStay(Hosts(usable), u.host);
    assert Hosts(usable + [u]) == Hosts(usable) + [u.host];
  }

  lemma {:induction false} FaultsStay(parts: seq<Part>, i: nat)
    requires i <= |parts|
    ensures FirstFault(parts[..i]).Some? ==> FirstFault(parts) == FirstFault(parts[..i])
    decreases |parts| - i
  {
    if i < |parts| {
      FaultsStay(parts, i + 1);
      assert parts[..i + 1][..i] == parts[..i];
    } else {
      assert parts[..i] == parts;
    }
  }

  /** A further entry names nobody anew, and is itself the next occurrence of its host. */
  lemma NamesStay(hosts: seq<string>, h: string)
    ensures forall k | 0 <= k < |hosts| :: Name(hosts + [h], k) == Name(hosts, k)
    ensures Occurrence(hosts + [h], |hosts|) == Count(hosts, h) + 1
    ensures forall g :: Count(hosts + [h], g) == Count(hosts, g) + if g == h then 1 else 0
  {
    forall k | 0 <= k < |hosts| ensures Name(hosts + [h], k) == Name(hosts, k) {
      NameStays(hosts, h, k);
    }
    assert (hosts + [h])[..|hosts|] == hosts;
  }

  lemma NameStays(hosts: seq<string>, h: string, k: nat)
    requires k < |hosts|
    ensures Name(hosts + [h], k) == Name(hosts, k)
  {
    assert (hosts + [h])[..k] == hosts[..k];
  }

  // ---- What the configuration comes to, part by part ----

  /** The number a string of decimal digits stands for. */
  function Value(s: string): int {
    if s == "" then 0 else 10 * Value(s[..|s| - 1]) + (s[|s| - 1] as int - '0' as int)
  }

  /** Decimal writes a number in digits, without leading zeros, and it reads back as the number. */
  lemma {:induction false} DecimalReads(n: nat)
    ensures Value(Decimal(n)) == n
    ensures forall k | 0 <= k < |Decimal(n)| :: '0' <= Decimal(n)[k] <= '9'
    ensures n > 0 ==> Decimal(n)[0] != '0'
  {
    if n >= 10 {
      DecimalReads(n / 10);
      assert Decimal(n)[..|Decimal(n)| - 1] == Decimal(n / 10);
    } else {
      assert Decimal(n)[..0] == "";
    }
  }

  /** The error a part causes. */
  ghost predicate Causes(part: Part, e: ConfigError) {
    || (part.Malformed? && e == InvalidURL)
    || (part.WrongScheme? && e == SchemeMustBeHTTP)
    || (part.NoHost? && e == MissingHost)
  }

  ghost predicate CausedFirst(parts: seq<Part>, e: ConfigError, k: int) {
    0 <= k < |parts| && Causes(parts[k], e) && forall j | 0 <= j < k :: parts[j].Blank? || parts[j].Usable?
  }

  /** The first part that is at fault decides the error. */
  lemma {:induction false} FaultIsFirst(parts: seq<Part>, e: ConfigError)
    ensures FirstFault(parts) == Some(e) <==> exists k :: CausedFirst(parts, e, k)
    ensures FirstFault(parts) == None <==> forall k | 0 <= k < |parts| :: parts[k].Blank? || parts[k].Usable?
  {
    if parts != [] {
      var n := |parts| - 1;
      FaultIsFirst(parts[..n], e);
      if k :| CausedFirst(parts[..n], e, k) {
        assert CausedFirst(parts, e, k);
      }
      if k :| CausedFirst(parts, e, k) {
        if k < n {
          assert CausedFirst(parts[..n], e, k);
        }
      }
      if FirstFault(parts[..n]) == None && Causes(parts[n], e) {
        assert CausedFirst(parts, e, n);
      }
    }
  }

  /** The usable parts among the first k, and those of a host. */
  ghost function UsableBefore(parts: seq<Part>, k: nat): set<nat> {
    set i: nat | i < k && i < |parts| && parts[i].Usable?
  }

  ghost function SameHostBefore(parts: seq<Part>, k: nat, h: string): set<nat> {
    set i: nat | i < k && i < |parts| && parts[i].Usable? && parts[i].host == h
  }

  lemma OneMorePart(parts: seq<Part>, k: nat)
    requires k < |parts|
    ensures UsableParts(parts[..k + 1]) == UsableParts(parts[..k]) + if parts[k].Usable? then [parts[k]] else []
  {
    assert parts[..k + 1][..k] == parts[..k];
  }

  lemma {:induction false} UsableSize(parts: seq<Part>, k: nat)
    requires k <= |parts|
    ensures |UsableParts(parts[..k])| == |UsableBefore(parts, k)|
  {
    if k == 0 {
      assert UsableBefore(parts, 0) == {};
    } else {
      UsableSize(parts, k - 1);
      OneMorePart(parts, k - 1);
      assert UsableBefore(parts, k) == UsableBefore(parts, k - 1) + if parts[k - 1].Usable? then {k - 1} else {};
    }
  }

  lemma {:induction false} HostCount(parts: seq<Part>, k: nat, h: string)
    requires k <= |parts|
    ensures Count(Hosts(UsableParts(parts[..k])), h) == |SameHostBefore(parts, k, h)|
  {
    if k == 0 {
      assert SameHostBefore(parts, 0, h) == {};
    } else {
      HostCount(parts, k - 1, h);
      HostCountNext(parts, k - 1, h);
      assert SameHostBefore(parts, k, h) == SameHostBefore(parts, k - 1, h)
             + if parts[k - 1].Usable? && parts[k - 1].host == h then {k - 1} else {};
    }
  }

  lemma HostCountNext(parts: seq<Part>, k: nat, h: string)
    requires k < |parts|
    ensures Count(Hosts(UsableParts(parts[..k + 1])), h) ==
            Count(Hosts(UsableParts(parts[..k])), h) + if parts[k].Usable? && parts[k].host == h then 1 else 0
  {
    OneMorePart(parts, k);
    var fewer := UsableParts(parts[..k]);
    if parts[k].Usable? {
      assert Hosts(fewer + [parts[k]]) == Hosts(fewer) + [parts[k].host];
      NamesStay(Hosts(fewer), parts[k].host);
    } else {
      assert fewer + [] == fewer;
    }
  }

  lemma {:induction false} UsablePrefix(parts: seq<Part>, j: nat, k: nat)
    requires j <= k <= |parts|
    ensures UsableParts(parts[..j]) <= UsableParts(parts[..k])
  {
    if j < k {
      UsablePrefix(parts, j, k - 1);
      OneMorePart(parts, k - 1);
    }
  }

  /** The entry of the n-th listing of a host. */
  ghost predicate IsEntry(entry: EndpointConfig, url: string, host: string, n: int)
    requires n >= 0
  {
    && entry.url == url && entry.weight == 1
    && entry.name == if n == 1 then host else host + "-" + Decimal(n)
  }

  /** Main result: the entry of a usable part stands after those of the usable parts before it, with the part's
      URL and weight 1, and is named by the host, with the number of the host's occurrence from the second on. */
  lemma EntryOfPart(parts: seq<Part>, k: nat)
    requires k < |parts| && parts[k].Usable?
    ensures |Entries(UsableParts(parts))| == |UsableBefore(parts, |parts|)|
    ensures var at, n := |UsableBefore(parts, k)|, |SameHostBefore(parts, k + 1, parts[k].host)|;
            at < |UsableParts(parts)| && IsEntry(Entries(UsableParts(parts))[at], parts[k].url, parts[k].host, n)
  {
    var usable, before, h := UsableParts(parts), UsableParts(parts[..k]), parts[k].host;
    assert parts[..|parts|] == parts;
    UsableSize(parts, |parts|);
    UsableSize(parts, k);
    HostCount(parts, k, h);
    PartStandsAt(parts, k);
    EntryAt(usable, before, parts[k]);
    OneMoreListing(parts, k);
  }

  lemma OneMoreListing(parts: seq<Part>, k: nat)
    requires k < |parts| && parts[k].Usable?
    ensures var h := parts[k].host; |SameHostBefore(parts, k + 1, h)| == |SameHostBefore(parts, k, h)| + 1
  {
    var h := parts[k].host;
    assert SameHostBefore(parts, k + 1, h) == SameHostBefore(parts, k, h) + {k};
  }

  lemma EntryAt(usable: seq<Part>, before: seq<Part>, u: Part)
    requires forall k | 0 <= k < |usable| :: usable[k].Usable?
    requires forall k | 0 <= k < |before| :: before[k].Usable?
    requires u.Usable? && before + [u] <= usable
    ensures var n := Count(Hosts(before), u.host) + 1;
            IsEntry(Entries(usable)[|before|], u.url, u.host, n)
  {
    assert usable[|before|] == (before + [u])[|before|];
    assert Hosts(usable)[..|before|] == Hosts(before);
  }

  lemma PartStandsAt(parts: seq<Part>, k: nat)
    requires k < |parts| && parts[k].Usable?
    ensures UsableParts(parts[..k]) + [parts[k]] <= UsableParts(parts)
  {
    OneMorePart(parts, k);
    UsablePrefix(parts, k + 1, |parts|);
    assert parts[..|parts|] == parts;
  }

  // ---- When two endpoints get the same name ----

  ghost predicate NameShared(hosts: seq<string>, i: nat, j: nat) {
    i < j < |hosts| && Name(hosts, i) == Name(hosts, j)
  }

  /** Some listed host reads like the n-th occurrence of h, which there is. */
  ghost predicate Mistakable(hosts: seq<string>, h: string, n: nat) {
    2 <= n <= Count(hosts, h) && Numbered(h, n) in hosts
  }

  /** Main result: names collide exactly when some listed host is literally h-n for another host h that
      is listed at least n >= 2 times. */
  lemma NamesCollide(hosts: seq<string>)
    ensures (exists i, j :: NameShared(hosts, i, j)) <==> (exists h, n :: Mistakable(hosts, h, n))
  {
    if i, j :| NameShared(hosts, i, j) {
      CollisionMeansNumberedHost(hosts, i, j);
    }
    if h, n :| Mistakable(hosts, h, n) {
      var i := FindOccurrence(hosts, h, n);
      var j := FindFirst(hosts, Numbered(h, n));
      assert i != j && Name(hosts, i) == Name(hosts, j);
      assert NameShared(hosts, if i < j then i else j, if i < j then j else i);
    }
  }

  lemma CollisionMeansNumberedHost(hosts: seq<string>, i: nat, j: nat)
    requires NameShared(hosts, i, j)
    ensures exists h, n :: Mistakable(hosts, h, n)
  {
    var m, n := Occurrence(hosts, i), Occurrence(hosts, j);
    OccurrenceBound(hosts, i);
    OccurrenceBound(hosts, j);
    if hosts[i] == hosts[j] {
      LaterOccurrence(hosts, i, j);
    }
    if m == 1 && n > 1 {
      assert Mistakable(hosts, hosts[j], n);
    } else if n == 1 && m > 1 {
      assert Mistakable(hosts, hosts[i], m);
    } else if n > 1 && m > 1 {
      SplitAtLastDash(hosts[i], m, hosts[j], n);
    }
  }

  lemma OccurrenceBound(hosts: seq<string>, k: nat)
    requires k < |hosts|
    ensures Occurrence(hosts, k) <= Count(hosts, hosts[k])
  {
    CountGrows(hosts, k + 1, |hosts|, hosts[k]);
    assert hosts[..k + 1][..k] == hosts[..k] && hosts[..|hosts|] == hosts;
  }

  /** The part after the last dash is the number. */
  lemma SplitAtLastDash(a: string, m: nat, b: string, n: nat)
    requires Numbered(a, m) == Numbered(b, n)
    ensures a == b && m == n
  {
    var x, y := Numbered(a, m), Numbered(b, n);
    DashAt(a, m);
    DashAt(b, n);
    assert x[|a|] == '-' && y[|b|] == '-';
    assert |a| == |b|;
    assert x[..|a|] == a && y[..|b|] == b && x[|a| + 1..] == Decimal(m) && y[|b| + 1..] == Decimal(n);
    DecimalInjective(m, n);
  }

  lemma DashAt(a: string, m: nat)
    ensures forall k | |a| < k < |Numbered(a, m)| :: Numbered(a, m)[k] != '-'
  {
    forall k | |a| < k < |Numbered(a, m)| ensures Numbered(a, m)[k] != '-' {
      assert Numbered(a, m)[k] == Decimal(m)[k - |a| - 1];
    }
  }

  lemma {:induction false} CountGrows(hosts: seq<string>, i: nat, j: nat, h: string)
    requires i <= j <= |hosts|
    ensures Count(hosts[..i], h) <= Count(hosts[..j], h)
  {
    if i < j {
      CountGrows(hosts, i, j - 1, h);
      assert hosts[..j][..j - 1] == hosts[..j - 1];
    }
  }

  /** A later entry with the same host has a higher number. */
  lemma LaterOccurrence(hosts: seq<string>, i: nat, j: nat)
    requires i < j < |hosts| && hosts[i] == hosts[j]
    ensures Occurrence(hosts, i) < Occurrence(hosts, j)
  {
    CountGrows(hosts, i + 1, j, hosts[i]);
    assert hosts[..i + 1][..i] == hosts[..i];
  }

  lemma {:induction false} FindOccurrence(hosts: seq<string>, h: string, n: nat) returns (k: nat)
    requires 1 <= n <= Count(hosts, h)
    ensures k < |hosts| && hosts[k] == h && Occurrence(hosts, k) == n
  {
    k := |hosts| - 1;
    if Count(hosts[..k], h) >= n {
      var shorter := hosts[..k];
      k := FindOccurrence(shorter, h, n);
      assert shorter[..k] == hosts[..k];
    }
  }

  lemma FindFirst(hosts: seq<string>, h: string) returns (k: nat)
    requires h in hosts
    ensures k < |hosts| && hosts[k] == h && Occurrence(hosts, k) == 1
  {
    var i: nat :| i < |hosts| && hosts[i] == h;
    CountGrows(hosts, i + 1, |hosts|, h);
    assert hosts[..i + 1][..i] == hosts[..i] && hosts[..|hosts|] == hosts;
    k := FindOccurrence(hosts, h, 1);
  }

  /** Three entries that collide: the second "a" and the host "a-2". */
  lemma CollisionExample()
    ensures var hosts := ["a", "a", "a-2"]; Name(hosts, 1) == Name(hosts, 2) == "a-2"
  {
    var hosts := ["a", "a", "a-2"];
    assert hosts[..1] == ["a"] && ["a"][..0] == [] && hosts[..2] == ["a", "a"] && ["a", "a"][..1] == ["a"];
    assert Count(["a"], "a") == 1;
    assert Occurrence(hosts, 1) == 2;
    assert Count(["a"], "a-2") == 0;
    assert Occurrence(hosts, 2) == 1;
  }
}
