/**
 The access policy: allowlists are normalised, rendered into rules for project
 roles, and included between the host's own lines.  PostgreSQL takes the first
 line that matches a connection (section 20.1 of its documentation).
 */
module Hba {
  import opened Records

  const MAX_ADDRESSES := 32

  /** Names of databases and roles: the system's own, project names in their text order, and all others. */
  datatype Name = Bootstrap | Health | Mgmt | SystemDb | App(id: nat) | OtherName(text: string)

  /** An address as its bits, 32 or 128 of them, the most significant first. */
  datatype Address = Address(v6: bool, bits: seq<bool>)

  datatype Prefix = Prefix(v6: bool, base: seq<bool>, length: nat)

  // ----- ranges -----

  function Width(v6: bool): nat { if v6 then 128 else 32 }

  predicate IsAddress(a: Address) { |a.bits| == Width(a.v6) }

  predicate WellFormed(p: Prefix) { |p.base| == Width(p.v6) && p.length <= Width(p.v6) }

  /** The address agrees with the base in the leading bits. */
  predicate Contains(p: Prefix, a: Address)
    requires WellFormed(p)
  {
    IsAddress(a) && a.v6 == p.v6 && a.bits[..p.length] == p.base[..p.length]
  }

  /** The bits after the length are cleared. */
  function Masked(p: Prefix): Prefix
    requires WellFormed(p)
  {
    p.(base := p.base[..p.length] + Repeat(false, |p.base| - p.length))
  }

  function Repeat(b: bool, n: nat): seq<bool> { seq(n, _ => b) }

  /** An IPv4 address written as an IPv6 one: eighty zeros, then sixteen ones. */
  predicate FourInSix(p: Prefix)
    requires WellFormed(p)
  {
    p.v6 && p.base[..96] == Repeat(false, 80) + Repeat(true, 16)
  }

  /** Masking keeps the addresses and is idempotent. */
  lemma MaskKeeps(p: Prefix, a: Address)
    requires WellFormed(p)
    ensures WellFormed(Masked(p)) && Masked(Masked(p)) == Masked(p)
    ensures Contains(Masked(p), a) <==> Contains(p, a)
  {
    assert Masked(p).base[..p.length] == p.base[..p.length];
  }

  // ----- allowlists -----

  /** An entry as the operator wrote it, after parsing: blank, a range, a single address, or not an address. */
  datatype Raw = Blank | Range(range: Prefix) | Single(address: Address) | Junk

  predicate Parsed(r: Raw) { (r.Range? ==> WellFormed(r.range)) && (r.Single? ==> IsAddress(r.address)) }

  datatype Result<T> = Ok(value: T) | TooMany | NotAnAddress | MappedAddress

  /** The range an entry stands for. */
  function RangeOf(r: Raw): (p: Prefix)
    requires Parsed(r) && (r.Range? || r.Single?)
    ensures WellFormed(p)
  {
    Masked(if r.Range? then r.range else Prefix(r.address.v6, r.address.bits, Width(r.address.v6)))
  }

  /** What an entry admits. */
  predicate Means(r: Raw, a: Address)
    requires Parsed(r)
  {
    match r
    case Range(p) => Contains(p, a)
    case Single(s) => s == a
    case _ => false
  }

  predicate Rejected(r: Raw)
    requires Parsed(r)
  {
    r.Junk? || ((r.Range? || r.Single?) && FourInSix(RangeOf(r)))
  }

  ghost predicate Union(ranges: seq<Prefix>, a: Address)
    requires forall i | 0 <= i < |ranges| :: WellFormed(ranges[i])
  {
    exists i | 0 <= i < |ranges| :: Contains(ranges[i], a)
  }

  /** The ranges of the entries in order, each once, without blanks. */
  function Canonical(raws: seq<Raw>): seq<Prefix>
    requires forall i | 0 <= i < |raws| :: Parsed(raws[i])
  {
    if raws == [] then []
    else
      var before, last := Canonical(raws[..|raws| - 1]), raws[|raws| - 1];
      if (last.Range? || last.Single?) && RangeOf(last) !in before then before + [RangeOf(last)] else before
  }

  /** Validates an allowlist and returns canonical ranges. */
  method Normalize(raws: seq<Raw>) returns (result: Result<seq<Prefix>>)
    requires forall i | 0 <= i < |raws| :: Parsed(raws[i])
    ensures result.Ok? <==> |raws| <= MAX_ADDRESSES && forall i | 0 <= i < |raws| :: !Rejected(raws[i])
    ensures result.Ok? ==> result.value == Canonical(raws)
  {
    if |raws| > MAX_ADDRESSES { return TooMany; }
    var out, seen: set<Prefix> := [], {};
    for i := 0 to |raws|
      invariant forall j | 0 <= j < i :: !Rejected(raws[j])
      invariant out == Canonical(raws[..i]) && seen == set p | p in out
    {
      assert raws[..i + 1][..i] == raws[..i];
      var r := raws[i];
      if r.Blank? { continue; }
      if r.Junk? { return NotAnAddress; }
      var prefix := RangeOf(r);
      if FourInSix(prefix) { return MappedAddress; }
      if prefix !in seen { seen, out := seen + {prefix}, out + [prefix]; }
    }
    assert raws[..|raws|] == raws;
    result := Ok(out);
  }

  lemma SingleIsItself(s: Address, a: Address)
    requires IsAddress(s)
    ensures Contains(Prefix(s.v6, s.bits, Width(s.v6)), a) <==> s == a
  {
    assert s.bits[..Width(s.v6)] == s.bits;
    if a.v6 == s.v6 && IsAddress(a) { assert a.bits[..Width(s.v6)] == a.bits; }
  }

  lemma EntryMeansRange(r: Raw, a: Address)
    requires Parsed(r) && (r.Range? || r.Single?)
    ensures WellFormed(RangeOf(r)) && (Contains(RangeOf(r), a) <==> Means(r, a))
  {
    var p := if r.Range? then r.range else Prefix(r.address.v6, r.address.bits, Width(r.address.v6));
    MaskKeeps(p, a);
    if r.Single? { SingleIsItself(r.address, a); }
  }

  ghost predicate Tidy(ranges: seq<Prefix>) {
    && (forall i | 0 <= i < |ranges| :: WellFormed(ranges[i]) && Masked(ranges[i]) == ranges[i])
    && (forall i, j | 0 <= i < j < |ranges| :: ranges[i] != ranges[j])
  }

  /** Canonical ranges are well formed, masked and distinct, and no more than the entries. */
  lemma {:induction false} CanonicalIsTidy(raws: seq<Raw>)
    requires forall i | 0 <= i < |raws| :: Parsed(raws[i])
    ensures Tidy(Canonical(raws)) && |Canonical(raws)| <= |raws|
  {
    if raws != [] {
      var last := raws[|raws| - 1];
      CanonicalIsTidy(raws[..|raws| - 1]);
      if last.Range? || last.Single? { RangeIsMasked(last); }
    }
  }

  lemma RangeIsMasked(r: Raw)
    requires Parsed(r) && (r.Range? || r.Single?)
    ensures Masked(RangeOf(r)) == RangeOf(r)
  {
    MaskKeeps(if r.Range? then r.range else Prefix(r.address.v6, r.address.bits, Width(r.address.v6)),
              Address(false, []));
  }

  /** They admit exactly what the entries mean. */
  lemma {:induction false} NormalizeKeepsAddresses(raws: seq<Raw>, a: Address)
    requires forall i | 0 <= i < |raws| :: Parsed(raws[i])
    ensures (forall i | 0 <= i < |Canonical(raws)| :: WellFormed(Canonical(raws)[i]))
    ensures Union(Canonical(raws), a) <==> exists i | 0 <= i < |raws| :: Means(raws[i], a)
  {
    CanonicalIsTidy(raws);
    if raws != [] {
      var n := |raws| - 1;
      var init, last := raws[..n], raws[n];
      NormalizeKeepsAddresses(init, a);
      if last.Range? || last.Single? { EntryMeansRange(last, a); }
      UnionStep(init, last, Canonical(init), Canonical(raws), a);
      assert raws == init + [last];
    }
  }

  function AsRanges(ranges: seq<Prefix>): seq<Raw> { seq(|ranges|, i requires 0 <= i < |ranges| => Range(ranges[i])) }

  /** Normalising what was normalised changes nothing. */
  lemma {:induction false} TidyIsCanonical(ranges: seq<Prefix>)
    requires Tidy(ranges)
    ensures Canonical(AsRanges(ranges)) == ranges
  {
    if ranges != [] {
      var n := |ranges| - 1;
      assert AsRanges(ranges)[..n] == AsRanges(ranges[..n]);
      TidyIsCanonical(ranges[..n]);
      assert ranges[n] !in ranges[..n];
      assert ranges == ranges[..n] + [ranges[n]];
    }
  }

  lemma NormalizeIsIdempotent(raws: seq<Raw>)
    requires forall i | 0 <= i < |raws| :: Parsed(raws[i])
    requires |raws| <= MAX_ADDRESSES && forall i | 0 <= i < |raws| :: !Rejected(raws[i])
    ensures var again := AsRanges(Canonical(raws));
      && (forall i | 0 <= i < |again| :: Parsed(again[i]) && !Rejected(again[i])) && |again| <= MAX_ADDRESSES
      && Canonical(again) == Canonical(raws)
  {
    CanonicalIsTidy(raws);
    TidyIsCanonical(Canonical(raws));
    forall i | 0 <= i < |Canonical(raws)| ensures !FourInSix(Canonical(raws)[i]) { CameFrom(raws, i); }
  }

  lemma {:induction false} CameFrom(raws: seq<Raw>, i: nat)
    requires (forall k | 0 <= k < |raws| :: Parsed(raws[k]) && !Rejected(raws[k])) && i < |Canonical(raws)|
    ensures WellFormed(Canonical(raws)[i]) && !FourInSix(Canonical(raws)[i])
  {
    var init := raws[..|raws| - 1];
    if i < |Canonical(init)| { CameFrom(init, i); }
  }

  lemma UnionStep(init: seq<Raw>, last: Raw, before: seq<Prefix>, after: seq<Prefix>, a: Address)
    requires (forall i | 0 <= i < |init| :: Parsed(init[i])) && Parsed(last)
    requires forall i | 0 <= i < |before| :: WellFormed(before[i])
    requires forall i | 0 <= i < |after| :: WellFormed(after[i])
    requires after ==
      if (last.Range? || last.Single?) && RangeOf(last) !in before then before + [RangeOf(last)] else before
    requires last.Range? || last.Single? ==>
      WellFormed(RangeOf(last)) && (Contains(RangeOf(last), a) <==> Means(last, a))
    requires Union(before, a) <==> exists i | 0 <= i < |init| :: Means(init[i], a)
    ensures Union(after, a) <==> exists i | 0 <= i < |init + [last]| :: Means((init + [last])[i], a)
  {
    var all := init + [last];
    if i :| 0 <= i < |init| && Means(init[i], a) { assert Means(all[i], a); }
    if Means(last, a) {
      assert Means(all[|init|], a);
      if RangeOf(last) in before {
        var k :| 0 <= k < |before| && before[k] == RangeOf(last);
        assert Contains(before[k], a);
      }
      else { assert Contains(after[|before|], a); }
    }
    if k :| 0 <= k < |before| && Contains(before[k], a) { assert Contains(after[k], a); }
    if k :| 0 <= k < |after| && Contains(after[k], a) {
      if k < |before| { assert Contains(before[k], a); }
    }
    if i :| 0 <= i < |all| && Means(all[i], a) { assert i < |init| ==> Means(init[i], a); }
  }

  // ----- lines -----

  datatype Kind = Local | Host | HostSsl

  datatype Names = AllNames | Named(name: Name)

  datatype Source = AnySource | From(prefix: Prefix)

  datatype Method = Scram | Reject | OtherMethod(text: string)

  datatype Line = Line(kind: Kind, database: Names, user: Names, source: Source, auth: Method)

  datatype Connection = Connection(local: bool, tls: bool, database: Name, role: Name, address: Address)

  datatype Verdict = NoMatch | Use(auth: Method)

  predicate NameFits(n: Names, name: Name) { n.AllNames? || n.name == name }

  predicate LineFits(l: Line, c: Connection) {
    && NameFits(l.database, c.database) && NameFits(l.user, c.role)
    && match l.kind
       case Local => c.local
       case Host => !c.local && SourceFits(l.source, c.address)
       case HostSsl => !c.local && c.tls && SourceFits(l.source, c.address)
  }

  predicate SourceFits(s: Source, a: Address) { s.AnySource? || (WellFormed(s.prefix) && Contains(s.prefix, a)) }

  /** The first line that fits decides; a connection no line fits is refused. */
  function Decide(lines: seq<Line>, c: Connection): Verdict {
    if lines == [] then NoMatch else if LineFits(lines[0], c) then Use(lines[0].auth) else Decide(lines[1..], c)
  }

  predicate Admitted(v: Verdict) { v.Use? && !v.auth.Reject? }

  lemma {:induction false} DecideSplit(a: seq<Line>, b: seq<Line>, c: Connection)
    ensures Decide(a + b, c) == if Decide(a, c).NoMatch? then Decide(b, c) else Decide(a, c)
  {
    if a == [] {
      assert a + b == b;
    } else {
      assert (a + b)[1..] == a[1..] + b;
      DecideSplit(a[1..], b, c);
    }
  }

  /** The host's own lines before and after the managed file. */
  function Pinned(loopback: Prefix, subnet: Prefix): seq<Line> {
    [ Line(Local, AllNames, Named(Bootstrap), AnySource, Scram),
      Line(Host, Named(SystemDb), Named(Health), From(loopback), Scram),
      Line(Host, Named(SystemDb), Named(Health), From(subnet), Scram),
      Line(Host, AllNames, Named(Mgmt), From(subnet), Scram),
      Line(Host, AllNames, Named(Bootstrap), AnySource, Reject),
      Line(Host, AllNames, Named(Health), AnySource, Reject),
      Line(Host, AllNames, Named(Mgmt), AnySource, Reject) ]
  }

  function Closing(): seq<Line> {
    [ Line(Local, AllNames, AllNames, AnySource, Reject),
      Line(Host, AllNames, AllNames, From(Prefix(false, Repeat(false, 32), 0)), Reject),
      Line(Host, AllNames, AllNames, From(Prefix(true, Repeat(false, 128), 0)), Reject) ]
  }

  function HbaFile(loopback: Prefix, subnet: Prefix, managed: seq<Line>): seq<Line> {
    Pinned(loopback, subnet) + managed + Closing()
  }

  // ----- rendering -----

  datatype Rule = Rule(database: Name, role: Name, addresses: seq<Prefix>)

  datatype Tunnel = NoTunnel | Tunnel(source: Prefix)

  function LinesFor(tunnel: Tunnel, r: Rule): seq<Line> {
    (if tunnel.Tunnel? then [Line(Host, Named(r.database), Named(r.role), From(tunnel.source), Scram)] else []) +
    seq(|r.addresses|, i requires 0 <= i < |r.addresses| =>
        Line(HostSsl, Named(r.database), Named(r.role), From(r.addresses[i]), Scram))
  }

  function LinesOf(tunnel: Tunnel, rules: seq<Rule>): seq<Line> {
    if rules == [] then [] else LinesOf(tunnel, rules[..|rules| - 1]) + LinesFor(tunnel, rules[|rules| - 1])
  }

  /** The rules in the order of their databases. */
  predicate Ordered(rules: seq<Rule>) {
    forall i, j | 0 <= i < j < |rules| && rules[i].database.App? && rules[j].database.App? ::
      rules[i].database.id <= rules[j].database.id
  }

  predicate ProjectRules(rules: seq<Rule>) {
    forall i | 0 <= i < |rules| :: rules[i].database.App? && rules[i].role.App?
  }

  function Inserted(sorted: seq<Rule>, r: Rule): seq<Rule>
    requires r.database.App? && ProjectRules(sorted)
  {
    if sorted == [] || sorted[|sorted| - 1].database.id <= r.database.id then sorted + [r]
    else Inserted(sorted[..|sorted| - 1], r) + [sorted[|sorted| - 1]]
  }

  lemma {:induction false} InsertedHolds(sorted: seq<Rule>, r: Rule)
    requires r.database.App? && ProjectRules(sorted)
    ensures multiset(Inserted(sorted, r)) == multiset(sorted) + multiset{r}
  {
    if sorted != [] && sorted[|sorted| - 1].database.id > r.database.id {
      var init, last := sorted[..|sorted| - 1], sorted[|sorted| - 1];
      InsertedHolds(init, r);
      assert sorted == init + [last];
      assert multiset(Inserted(init, r) + [last]) == multiset(Inserted(init, r)) + multiset{last};
    }
  }

  lemma InsertedMembers(sorted: seq<Rule>, r: Rule)
    requires r.database.App? && ProjectRules(sorted)
    ensures forall x | x in Inserted(sorted, r) :: x == r || x in sorted
  {
    InsertedHolds(sorted, r);
    forall x | x in Inserted(sorted, r) ensures x == r || x in sorted {
      assert x in multiset(Inserted(sorted, r));
    }
  }

  lemma {:induction false} InsertedKeeps(sorted: seq<Rule>, r: Rule)
    requires r.database.App? && r.role.App? && ProjectRules(sorted) && Ordered(sorted)
    ensures ProjectRules(Inserted(sorted, r)) && Ordered(Inserted(sorted, r))
  {
    if sorted != [] && sorted[|sorted| - 1].database.id > r.database.id {
      var init, last := sorted[..|sorted| - 1], sorted[|sorted| - 1];
      InsertedKeeps(init, r);
      InsertedMembers(init, r);
      OrderedSnoc(Inserted(init, r), last, init, r);
    }
  }

  lemma OrderedSnoc(front: seq<Rule>, last: Rule, init: seq<Rule>, r: Rule)
    requires ProjectRules(front) && Ordered(front) && last.database.App? && r.database.App?
    requires r.database.id <= last.database.id
    requires ProjectRules(init) && Ordered(init + [last])
    requires forall i | 0 <= i < |front| :: front[i] == r || front[i] in init
    ensures Ordered(front + [last])
  {
    forall i | 0 <= i < |front| ensures front[i].database.id <= last.database.id {
      if front[i] in init {
        var k :| 0 <= k < |init| && init[k] == front[i];
        assert (init + [last])[k] == front[i] && (init + [last])[|init|] == last;
      }
    }
  }

  method Sorted(rules: seq<Rule>) returns (sorted: seq<Rule>)
    requires ProjectRules(rules)
    ensures ProjectRules(sorted) && Ordered(sorted) && multiset(sorted) == multiset(rules)
  {
    sorted := [];
    for i := 0 to |rules|
      invariant ProjectRules(sorted) && Ordered(sorted) && multiset(sorted) == multiset(rules[..i])
    {
      InsertedKeeps(sorted, rules[i]);
      InsertedHolds(sorted, rules[i]);
      assert rules[..i + 1] == rules[..i] + [rules[i]];
      sorted := Inserted(sorted, rules[i]);
    }
    assert rules[..|rules|] == rules;
  }

  /** The managed file: per rule one tunnel line and one TLS line per address, in database order. */
  method Render(tunnel: Tunnel, rules: seq<Rule>) returns (lines: seq<Line>, ghost order: seq<Rule>)
    requires ProjectRules(rules)
    ensures ProjectRules(order) && Ordered(order) && multiset(order) == multiset(rules)
    ensures lines == LinesOf(tunnel, order)
  {
    var sorted := Sorted(rules);
    order, lines := sorted, [];
    for i := 0 to |sorted|
      invariant lines == LinesOf(tunnel, sorted[..i])
    {
      assert sorted[..i + 1][..i] == sorted[..i];
      var r := sorted[i];
      ghost var before := lines;
      if tunnel.Tunnel? { lines := lines + [Line(Host, Named(r.database), Named(r.role), From(tunnel.source), Scram)]; }
      ghost var start := lines;
      for k := 0 to |r.addresses|
        invariant lines == start +
          seq(k, j requires 0 <= j < k <= |r.addresses| =>
            Line(HostSsl, Named(r.database), Named(r.role), From(r.addresses[j]), Scram))
      {
        lines := lines + [Line(HostSsl, Named(r.database), Named(r.role), From(r.addresses[k]), Scram)];
      }
      assert lines == before + LinesFor(tunnel, r);
    }
    assert sorted[..|sorted|] == sorted;
  }

  // ----- what the file admits -----

  /** A rule admits a connection: its own role on its own database, from the tunnel, or with
      TLS from an allowed address. */
  ghost predicate Allows(tunnel: Tunnel, r: Rule, c: Connection) {
    && r.role == c.role && r.database == c.database && !c.local
    && (|| (tunnel.Tunnel? && SourceFits(From(tunnel.source), c.address))
        || (c.tls && exists i | 0 <= i < |r.addresses| :: SourceFits(From(r.addresses[i]), c.address)))
  }

  /** For a rule made from an allowlist: the tunnel, or TLS from an address the operator listed. */
  lemma AllowsMeansAllowlist(tunnel: Tunnel, r: Rule, raws: seq<Raw>, c: Connection)
    requires (forall i | 0 <= i < |raws| :: Parsed(raws[i])) && r.addresses == Canonical(raws)
    ensures Allows(tunnel, r, c) <==>
      (r.role == c.role && r.database == c.database && !c.local &&
       ((tunnel.Tunnel? && SourceFits(From(tunnel.source), c.address)) ||
        (c.tls && exists i | 0 <= i < |raws| :: Means(raws[i], c.address))))
  {
    NormalizeKeepsAddresses(raws, c.address);
    assert Union(r.addresses, c.address) <==>
      exists i | 0 <= i < |r.addresses| :: SourceFits(From(r.addresses[i]), c.address) by {
      if i :| 0 <= i < |r.addresses| && Contains(r.addresses[i], c.address) {
        assert SourceFits(From(r.addresses[i]), c.address);
      }
      if i :| 0 <= i < |r.addresses| && SourceFits(From(r.addresses[i]), c.address) {
        assert Contains(r.addresses[i], c.address);
      }
    }
  }

  lemma {:induction false} DecideFits(lines: seq<Line>, c: Connection)
    ensures Decide(lines, c).Use? <==> exists i | 0 <= i < |lines| :: LineFits(lines[i], c)
    ensures (forall i | 0 <= i < |lines| :: lines[i].auth == Scram) ==>
      Decide(lines, c).NoMatch? || Decide(lines, c) == Use(Scram)
  {
    if lines != [] {
      DecideFits(lines[1..], c);
      if i :| 0 <= i < |lines[1..]| && LineFits(lines[1..][i], c) { assert LineFits(lines[i + 1], c); }
      if i :| 0 <= i < |lines| && LineFits(lines[i], c) { assert i > 0 ==> LineFits(lines[1..][i - 1], c); }
    }
  }

  lemma RuleDecides(tunnel: Tunnel, r: Rule, c: Connection)
    ensures Decide(LinesFor(tunnel, r), c) == if Allows(tunnel, r, c) then Use(Scram) else NoMatch
  {
    var lines := LinesFor(tunnel, r);
    DecideFits(lines, c);
    var n := if tunnel.Tunnel? then 1 else 0;
    if i :| 0 <= i < |lines| && LineFits(lines[i], c) {
      if i >= n { assert lines[i] == Line(HostSsl, Named(r.database), Named(r.role), From(r.addresses[i - n]), Scram); }
    }
    if Allows(tunnel, r, c) {
      if tunnel.Tunnel? && SourceFits(From(tunnel.source), c.address) {
        assert LineFits(lines[0], c);
      } else {
        var i :| 0 <= i < |r.addresses| && SourceFits(From(r.addresses[i]), c.address);
        assert LineFits(lines[n + i], c);
      }
    }
  }

  ghost predicate AnyAllows(tunnel: Tunnel, rules: seq<Rule>, c: Connection) {
    rules != [] && (AnyAllows(tunnel, rules[..|rules| - 1], c) || Allows(tunnel, rules[|rules| - 1], c))
  }

  lemma {:induction false} AnyAllowsMeans(tunnel: Tunnel, rules: seq<Rule>, c: Connection)
    ensures AnyAllows(tunnel, rules, c) <==> exists r :: r in rules && Allows(tunnel, r, c)
  {
    if rules != [] {
      var init, last := rules[..|rules| - 1], rules[|rules| - 1];
      AnyAllowsMeans(tunnel, init, c);
      assert forall r :: r in rules <==> r in init || r == last;
    }
  }

  lemma {:induction false} RulesDecide(tunnel: Tunnel, rules: seq<Rule>, c: Connection)
    ensures Decide(LinesOf(tunnel, rules), c) == if AnyAllows(tunnel, rules, c) then Use(Scram) else NoMatch
  {
    if rules != [] {
      var n := |rules| - 1;
      RulesDecide(tunnel, rules[..n], c);
      RuleDecides(tunnel, rules[n], c);
      DecideSplit(LinesOf(tunnel, rules[..n]), LinesFor(tunnel, rules[n]), c);
    }
  }

  lemma SystemRoles(loopback: Prefix, subnet: Prefix, c: Connection)
    ensures !(c.role.Bootstrap? || c.role.Health? || c.role.Mgmt?) ==> Decide(Pinned(loopback, subnet), c).NoMatch?
    ensures (c.role.Bootstrap? || c.role.Health? || c.role.Mgmt?) && !c.local ==>
      Decide(Pinned(loopback, subnet), c).Use?
    ensures c.role.Bootstrap? && c.local ==> Decide(Pinned(loopback, subnet), c) == Use(Scram)
    ensures (c.role.Health? || c.role.Mgmt?) && c.local ==> Decide(Pinned(loopback, subnet), c).NoMatch?
  {
    var lines := Pinned(loopback, subnet);
    DecideFits(lines, c);
    if c.role.Bootstrap? && !c.local { assert LineFits(lines[4], c); }
    if c.role.Health? && !c.local { assert LineFits(lines[5], c); }
    if c.role.Mgmt? && !c.local { assert LineFits(lines[6], c); }
    if c.role.Bootstrap? && c.local { assert LineFits(lines[0], c); }
  }

  lemma {:induction false} RejectsRefuse(lines: seq<Line>, c: Connection)
    requires forall i | 0 <= i < |lines| :: lines[i].auth == Reject
    ensures !Admitted(Decide(lines, c))
  {
    if lines != [] { RejectsRefuse(lines[1..], c); }
  }

  /** A project role is admitted exactly as the operator's rules say, whatever their order. */
  lemma PolicyMeansWhatItSays(loopback: Prefix, subnet: Prefix, tunnel: Tunnel, rules: seq<Rule>, order: seq<Rule>,
                              c: Connection)
    requires multiset(order) == multiset(rules) && c.role.App?
    ensures Admitted(Decide(HbaFile(loopback, subnet, LinesOf(tunnel, order)), c)) <==>
      exists r :: r in rules && Allows(tunnel, r, c)
  {
    var managed := LinesOf(tunnel, order);
    DecideSplit(Pinned(loopback, subnet) + managed, Closing(), c);
    DecideSplit(Pinned(loopback, subnet), managed, c);
    SystemRoles(loopback, subnet, c);
    RulesDecide(tunnel, order, c);
    RejectsRefuse(Closing(), c);
    assert forall r :: r in order <==> r in multiset(order);
    assert forall r :: r in rules <==> r in multiset(rules);
    AnyAllowsMeans(tunnel, order, c);
  }

  // ----- projects and their rules -----

  datatype Outcome = Waiting | InForce | Refused

  /** A project row with its current allowlist; an unreadable list is one that is not a list at all. */
  datatype Project = Project(ready: bool, database: nat, role: nat, raws: seq<Raw>, readable: bool,
                             current: nat, applied: nat, outcome: Outcome)

  predicate ListParsed(p: Project) { forall i | 0 <= i < |p.raws| :: Parsed(p.raws[i]) }

  predicate AllParsed(projects: seq<Project>) { forall i | 0 <= i < |projects| :: ListParsed(projects[i]) }

  predicate Normalises(p: Project)
    requires ListParsed(p)
  {
    |p.raws| <= MAX_ADDRESSES && forall i | 0 <= i < |p.raws| :: !Rejected(p.raws[i])
  }

  /** The project gets a rule at all. */
  predicate Rendered(p: Project)
    requires ListParsed(p)
  {
    p.ready && Normalises(p)
  }

  function RuleOf(p: Project): Rule
    requires ListParsed(p)
  {
    Rule(App(p.database), App(p.role), Canonical(p.raws))
  }

  function RulesFor(projects: seq<Project>): seq<Rule>
    requires AllParsed(projects)
  {
    if projects == [] then []
    else
      var last := projects[|projects| - 1];
      RulesFor(projects[..|projects| - 1]) + if Rendered(last) then [RuleOf(last)] else []
  }

  /** The rule comes from the project at this place. */
  predicate Yields(projects: seq<Project>, i: int, r: Rule)
    requires AllParsed(projects)
  {
    0 <= i < |projects| && Rendered(projects[i]) && r == RuleOf(projects[i])
  }

  lemma {:induction false} RulesForMeans(projects: seq<Project>)
    requires AllParsed(projects)
    ensures ProjectRules(RulesFor(projects))
    ensures forall r :: r in RulesFor(projects) <==> exists i :: Yields(projects, i, r)
  {
    if projects != [] {
      RulesForMeans(projects[..|projects| - 1]);
      forall r ensures r in RulesFor(projects) <==> exists i :: Yields(projects, i, r) { RuleOfSome(projects, r); }
    }
  }

  lemma RuleOfSome(projects: seq<Project>, r: Rule)
    requires AllParsed(projects) && projects != []
    requires var init := projects[..|projects| - 1]; r in RulesFor(init) <==> exists i :: Yields(init, i, r)
    ensures r in RulesFor(projects) <==> exists i :: Yields(projects, i, r)
  {
    var n := |projects| - 1;
    if i :| Yields(projects[..n], i, r) { assert Yields(projects, i, r); }
    if i :| Yields(projects, i, r) { assert i < n ==> Yields(projects[..n], i, r); }
    if Rendered(projects[n]) && r == RuleOf(projects[n]) { assert Yields(projects, n, r); }
  }

  /** The project serves the connection: it is ready and its list is sound, the role and the database
      are its own, and the source is the tunnel, or TLS from an address the operator listed. */
  ghost predicate Serves(tunnel: Tunnel, p: Project, c: Connection)
    requires ListParsed(p)
  {
    && p.ready && Normalises(p) && c.role == App(p.role) && c.database == App(p.database) && !c.local
    && ((tunnel.Tunnel? && SourceFits(From(tunnel.source), c.address)) ||
        (c.tls && exists i | 0 <= i < |p.raws| :: Means(p.raws[i], c.address)))
  }

  /** Some project serves the connection. */
  ghost predicate Served(tunnel: Tunnel, projects: seq<Project>, c: Connection)
    requires AllParsed(projects)
  {
    exists i | 0 <= i < |projects| :: Serves(tunnel, projects[i], c)
  }

  /** From the operator's lists to PostgreSQL's answer: a project role is admitted exactly when a
      project serves it, whatever order the rules were rendered in. */
  lemma AccessMeansServed(loopback: Prefix, subnet: Prefix, tunnel: Tunnel, projects: seq<Project>, order: seq<Rule>,
                          c: Connection)
    requires AllParsed(projects) && multiset(order) == multiset(RulesFor(projects)) && c.role.App?
    ensures Admitted(Decide(HbaFile(loopback, subnet, LinesOf(tunnel, order)), c)) <==> Served(tunnel, projects, c)
  {
    PolicyMeansWhatItSays(loopback, subnet, tunnel, RulesFor(projects), order, c);
    RulesForMeans(projects);
    forall i | 0 <= i < |projects|
      ensures Serves(tunnel, projects[i], c) <==> Rendered(projects[i]) && Allows(tunnel, RuleOf(projects[i]), c)
    {
      AllowsMeansAllowlist(tunnel, RuleOf(projects[i]), projects[i].raws, c);
    }
    if i :| 0 <= i < |projects| && Serves(tunnel, projects[i], c) { assert Yields(projects, i, RuleOf(projects[i])); }
  }

  predicate DistinctRoles(projects: seq<Project>) {
    forall i, j | 0 <= i < j < |projects| :: projects[i].role != projects[j].role
  }

  /** For one project's role: exactly when that project serves it. */
  lemma AccessOfOneProject(loopback: Prefix, subnet: Prefix, tunnel: Tunnel, projects: seq<Project>, order: seq<Rule>,
                           k: nat, c: Connection)
    requires AllParsed(projects) && multiset(order) == multiset(RulesFor(projects)) && DistinctRoles(projects)
    requires k < |projects| && c.role == App(projects[k].role)
    ensures Admitted(Decide(HbaFile(loopback, subnet, LinesOf(tunnel, order)), c)) <==> Serves(tunnel, projects[k], c)
  {
    AccessMeansServed(loopback, subnet, tunnel, projects, order, c);
    if i :| 0 <= i < |projects| && Serves(tunnel, projects[i], c) { assert i == k; }
  }

  /** What a project's row says after a synchronisation that applied the file, or did not. */
  function Reported(p: Project, ok: bool): Project
    requires ListParsed(p)
  {
    if !p.ready then p
    else if !Normalises(p) then p.(outcome := Refused)
    else if ok then p.(applied := p.current, outcome := InForce)
    else if p.applied != p.current then p.(outcome := Refused)
    else p
  }

  /** Only what really happened is reported, though a report may be lost. */
  predicate Truthful(before: seq<Project>, after: seq<Project>, ok: bool)
    requires AllParsed(before)
  {
    |after| == |before| && forall i | 0 <= i < |before| :: after[i] == before[i] || after[i] == Reported(before[i], ok)
  }

  /** Projects with a list that normalises get a rule; those without are reported, and a list that
      cannot be read stops the synchronisation. */
  method CollectRules(projects: seq<Project>, lucky: bool) returns (rules: Option<seq<Rule>>, after: seq<Project>)
    requires AllParsed(projects)
    ensures Truthful(projects, after, false)
    ensures rules.Some? ==> rules.value == RulesFor(projects)
    ensures rules.Some? ==> forall i | 0 <= i < |projects| && Rendered(projects[i]) :: after[i] == projects[i]
    ensures rules.Some? ==> forall i | 0 <= i < |projects| && projects[i].ready :: projects[i].readable
    ensures lucky && (forall i | 0 <= i < |projects| && projects[i].ready :: projects[i].readable) ==> rules.Some?
    ensures lucky && rules.Some? ==>
      forall i | 0 <= i < |projects| && !Rendered(projects[i]) :: after[i] == Reported(projects[i], false)
  {
    var out: seq<Rule> := [];
    after := projects;
    if !lucky { if * { return None, after; } }
    for i := 0 to |projects|
      invariant out == RulesFor(projects[..i])
      invariant |after| == |projects| && forall j | i <= j < |projects| :: after[j] == projects[j]
      invariant forall j | 0 <= j < i ::
        after[j] == projects[j] || (!Rendered(projects[j]) && after[j] == Reported(projects[j], false))
      invariant lucky ==> forall j | 0 <= j < i && !Rendered(projects[j]) :: after[j] == Reported(projects[j], false)
      invariant forall j | 0 <= j < i && projects[j].ready :: projects[j].readable
    {
      assert projects[..i + 1][..i] == projects[..i];
      var p := projects[i];
      if !p.ready { continue; }
      if !lucky { if * { return None, after; } }
      if !p.readable { return None, after; }
      var normalized := Normalize(p.raws);
      if !normalized.Ok? {
        var recorded := lucky;
        if !lucky { recorded := *; }
        if recorded { after := after[i := p.(outcome := Refused)]; }
        continue;
      }
      out := out + [Rule(App(p.database), App(p.role), normalized.value)];
    }
    assert projects[..|projects|] == projects;
    rules := Some(out);
  }

  /** Reports what the host made of the rules, project by project. */
  method Report(projects: seq<Project>, collected: seq<Project>, ok: bool, lucky: bool) returns (after: seq<Project>)
    requires AllParsed(projects) && Truthful(projects, collected, false)
    requires forall i | 0 <= i < |projects| && Rendered(projects[i]) :: collected[i] == projects[i]
    ensures Truthful(projects, after, ok)
    ensures forall i | 0 <= i < |projects| && !Rendered(projects[i]) :: after[i] == collected[i]
    ensures lucky ==> forall i | 0 <= i < |projects| && Rendered(projects[i]) :: after[i] == Reported(projects[i], ok)
  {
    after := collected;
    for i := 0 to |projects|
      invariant |after| == |projects| && forall j | i <= j < |projects| :: after[j] == collected[j]
      invariant forall j | 0 <= j < i :: after[j] == projects[j] || after[j] == Reported(projects[j], ok)
      invariant forall j | 0 <= j < i && !Rendered(projects[j]) :: after[j] == collected[j]
      invariant lucky ==> forall j | 0 <= j < i && Rendered(projects[j]) :: after[j] == Reported(projects[j], ok)
    {
      if Rendered(projects[i]) {
        var recorded := lucky;
        if !lucky { recorded := *; }
        if recorded { after := after[i := Reported(projects[i], ok)]; }
      }
    }
  }

  /** The managed file cannot change the answer for a system role, exactly unless the connection is
      local and the role has no local line of its own. */
  lemma SystemRolesArePinned(loopback: Prefix, subnet: Prefix, c: Connection)
    requires c.role.Bootstrap? || c.role.Health? || c.role.Mgmt?
    ensures (forall m1: seq<Line>, m2: seq<Line> ::
        Decide(HbaFile(loopback, subnet, m1), c) == Decide(HbaFile(loopback, subnet, m2), c)) <==>
      !(c.local && (c.role.Health? || c.role.Mgmt?))
  {
    SystemRoles(loopback, subnet, c);
    forall m: seq<Line>
      ensures Decide(HbaFile(loopback, subnet, m), c) ==
        if Decide(Pinned(loopback, subnet), c).Use? then Decide(Pinned(loopback, subnet), c)
        else Decide(m + Closing(), c)
    {
      assert HbaFile(loopback, subnet, m) == Pinned(loopback, subnet) + (m + Closing());
      DecideSplit(Pinned(loopback, subnet), m + Closing(), c);
    }
    if c.local && (c.role.Health? || c.role.Mgmt?) {
      var admit, refuse := [Line(Local, AllNames, AllNames, AnySource, Scram)],
        [Line(Local, AllNames, AllNames, AnySource, Reject)];
      assert Decide(admit + Closing(), c) == Use(Scram) && Decide(refuse + Closing(), c) == Use(Reject);
      assert Decide(HbaFile(loopback, subnet, admit), c) != Decide(HbaFile(loopback, subnet, refuse), c);
    }
  }

  // ----- applying -----

  class Manager {
    var file: Option<seq<Line>>
    /** The managed lines PostgreSQL last loaded. */
    var live: seq<Line>

    /** Writes the rules, lets PostgreSQL check and load them, and puts the
        previous file back if anything is rejected. */
    method Apply(tunnel: Tunnel, rules: seq<Rule>) returns (ok: bool, restored: bool, ghost written: seq<Line>)
      requires ProjectRules(rules)
      modifies this
      ensures exists order :: multiset(order) == multiset(rules) && written == LinesOf(tunnel, order)
      ensures ok ==> file == Some(written) && live == written
      ensures !ok && restored ==> file == old(file)
      ensures file == old(file) || file == Some(written)
      ensures live == old(live) || live == written
    {
      ok, restored := false, true;
      var lines; ghost var order;
      lines, order := Render(tunnel, rules);
      written := lines;
      if * { return; }
      var previous := file;
      file := Some(lines);
      if * {
        live := lines;
        if * { return true, false, lines; }
      }
      if * { restored := false; } else { file := previous; }
    }

    /** Renders every ready project's current list into the managed file and reports the outcomes.
        When it succeeds PostgreSQL admits a project role exactly when a project serves it. */
    method SyncPolicy(loopback: Prefix, subnet: Prefix, tunnel: Tunnel, projects: seq<Project>, lucky: bool)
      returns (ok: bool, after: seq<Project>)
      requires AllParsed(projects)
      modifies this
      ensures Truthful(projects, after, ok)
      ensures ok ==> file == Some(live)
      ensures ok ==> forall c: Connection | c.role.App? ::
        Admitted(Decide(HbaFile(loopback, subnet, live), c)) <==> Served(tunnel, projects, c)
      ensures (exists i | 0 <= i < |projects| :: projects[i].ready && !projects[i].readable) ==>
        !ok && file == old(file) && live == old(live)
      ensures lucky && (forall i | 0 <= i < |projects| && projects[i].ready :: projects[i].readable) ==>
        forall i | 0 <= i < |projects| :: after[i] == Reported(projects[i], ok)
    {
      var rules, collected := CollectRules(projects, lucky);
      if rules.None? { return false, collected; }
      RulesForMeans(projects);
      var restored; ghost var written;
      ok, restored, written := Apply(tunnel, rules.value);
      after := Report(projects, collected, ok, lucky);
      if ok {
        ghost var order :| multiset(order) == multiset(rules.value) && written == LinesOf(tunnel, order);
        forall c: Connection | c.role.App?
          ensures Admitted(Decide(HbaFile(loopback, subnet, live), c)) <==> Served(tunnel, projects, c)
        {
          AccessMeansServed(loopback, subnet, tunnel, projects, order, c);
        }
      }
    }
  }
}
