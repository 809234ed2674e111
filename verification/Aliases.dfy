/** Media aliases: names that stand for other media, resolved by redirection. */
module Aliases {
  import opened Media

  // ----- Strings -----

  /** Position of the first separator from `from` on, or the length. */
  function Find(s: string, separator: char, from: nat): (p: nat)
    requires from <= |s|
    ensures from <= p <= |s|
    decreases |s| - from
  {
    if from == |s| || s[from] == separator then from else Find(s, separator, from + 1)
  }

  lemma {:induction false} FindMeans(s: string, separator: char, from: nat)
    requires from <= |s|
    ensures var p := Find(s, separator, from);
      (forall i :: from <= i < p ==> s[i] != separator) && (p < |s| ==> s[p] == separator)
    decreases |s| - from
  {
    if from < |s| && s[from] != separator {
      FindMeans(s, separator, from + 1);
    }
  }

  function FirstPart(s: string): string {
    s[..Find(s, '/', 0)]
  }

  function SecondPart(s: string): string {
    var p := Find(s, '/', 0);
    if p == |s| then "" else s[p + 1..]
  }

  /** The piece up to the first slash; none when it is empty. */
  function Piece(s: string): seq<string> {
    if FirstPart(s) == "" then [] else [FirstPart(s)]
  }

  /** The non-empty pieces between slashes. */
  function Components(s: string): seq<string> {
    if Find(s, '/', 0) == |s| then Piece(s) else Piece(s) + Components(SecondPart(s))
  }

  lemma {:induction false} FindIs(s: string, separator: char, from: nat, p: nat)
    requires from <= p <= |s| && (forall i :: from <= i < p ==> s[i] != separator) && (p < |s| ==> s[p] == separator)
    ensures Find(s, separator, from) == p
    decreases p - from
  {
    if from < p {
      FindIs(s, separator, from + 1, p);
    }
  }

  /** The pieces of what stands behind a position. */
  lemma PartsBehind(s: string, pos: nat)
    requires pos <= |s|
    ensures var next := Find(s, '/', pos);
      && Find(s[pos..], '/', 0) == next - pos
      && FirstPart(s[pos..]) == s[pos..next]
      && (next < |s| ==> SecondPart(s[pos..]) == s[next + 1..])
  {
    FindMeans(s, '/', pos);
    FindIs(s[pos..], '/', 0, Find(s, '/', pos) - pos);
  }

  /** Going on from a position, with what has been found before it, finds all. */
  ghost predicate Finds(s: string, pos: nat, found: seq<string>, all: seq<string>)
    requires pos <= |s|
    decreases |s| - pos
  {
    if pos == |s| then found == all
    else
      var next := Find(s, '/', pos);
      var more := if next == pos then found else found + [s[pos..next]];
      if next == |s| then more == all else Finds(s, next + 1, more, all)
  }

  lemma {:induction false} GoingOnFinds(s: string, pos: nat, found: seq<string>)
    requires pos <= |s|
    ensures Finds(s, pos, found, found + Components(s[pos..]))
    decreases |s| - pos
  {
    var next := Find(s, '/', pos);
    if pos == |s| {
      NothingLeft(s, found);
    } else if next < |s| {
      NextPiece(s, pos, next);
      GoingOnFinds(s, next + 1, if next == pos then found else found + [s[pos..next]]);
      OneMore(found, s[pos..next], Components(s[next + 1..]));
    } else {
      LastPiece(s, pos);
    }
  }

  lemma NothingLeft(s: string, found: seq<string>)
    ensures found + Components(s[|s|..]) == found
  {
    assert s[|s|..] == "" && Components("") == [];
  }

  lemma LastPiece(s: string, pos: nat)
    requires pos < |s| && Find(s, '/', pos) == |s|
    ensures Components(s[pos..]) == [s[pos..|s|]]
  {
    PartsBehind(s, pos);
  }

  lemma NextPiece(s: string, pos: nat, next: nat)
    requires pos <= next < |s| && next == Find(s, '/', pos)
    ensures Components(s[pos..]) == (if next == pos then [] else [s[pos..next]]) + Components(s[next + 1..])
  {
    PartsBehind(s, pos);
  }

  lemma AllAhead(s: string) returns (all: seq<string>)
    ensures all == Components(s) && Finds(s, 0, [], all)
  {
    GoingOnFinds(s, 0, []);
    assert s[0..] == s && [] + Components(s) == Components(s);
    all := Components(s);
  }

  lemma OneMore(found: seq<string>, piece: string, rest: seq<string>)
    ensures (found + [piece]) + rest == found + ([piece] + rest)
    ensures found + ([] + rest) == found + rest
  {
  }

  method SplitString(s: string) returns (components: seq<string>)
    ensures components == Components(s)
  {
    components := [];
    var pos := 0;
    ghost var all := AllAhead(s);
    while true
      invariant pos <= |s| && Finds(s, pos, components, all)
      decreases |s| - pos
    {
      if pos >= |s| {
        return;
      }
      var next := Find(s, '/', pos);
      if next != pos {
        components := components + [s[pos..next]];
      }
      if next == |s| {
        return;
      }
      pos := next + 1;
    }
  }

  function JoinMedia(a: string, b: string): string {
    if a == "" then b
    else if b == "" then a
    else if a[|a| - 1] == '/' && b[0] == '/' then a + b[1..]
    else if a[|a| - 1] == '/' || b[0] == '/' then a + b
    else a + "/" + b
  }

  predicate IsIdentifierChar(c: char) {
    '0' <= c <= '9' || 'A' <= c <= 'Z' || c == '_' || 'a' <= c <= 'z'
  }

  predicate IsValidIdentifier(s: string) {
    s != "" && s[0] != '_' && forall i :: 0 <= i < |s| ==> IsIdentifierChar(s[i])
  }

  // ----- The alias table -----

  type Table = map<string, string>

  /** Some component of the value is an alias. */
  predicate NamesAlias(aliases: Table, value: string) {
    exists i :: 0 <= i < |Components(value)| && Components(value)[i] in aliases
  }

  /** An alias may be set when its name is free and its value names no alias. */
  predicate MaySet(elements: set<string>, aliases: Table, name: string, value: string) {
    name !in elements && IsValidIdentifier(name) && !NamesAlias(aliases, value)
  }

  /** Which aliases may be set, spelled out. */
  lemma MaySetIff(elements: set<string>, aliases: Table, name: string, value: string)
    ensures MaySet(elements, aliases, name, value) <==>
      && name !in elements && name != "" && name[0] != '_'
      && (forall c :: c in name ==> '0' <= c <= '9' || 'A' <= c <= 'Z' || 'a' <= c <= 'z' || c == '_')
      && (forall component :: component in Components(value) ==> component !in aliases)
  {
    if forall c :: c in name ==> '0' <= c <= '9' || 'A' <= c <= 'Z' || 'a' <= c <= 'z' || c == '_' {
      assert forall i :: 0 <= i < |name| ==> name[i] in name;
    }
  }

  class Mapper {
    var globalElements: set<string>
    var otherElements: set<string>
    var aliases: Table
    // when each alias was last set
    ghost var setAt: map<string, nat>
    ghost var clock: nat

    ghost predicate Valid()
      reads this
    {
      Ranked(aliases, setAt, clock)
    }

    constructor (globalElements: set<string>, otherElements: set<string>)
      ensures Valid() && aliases == map[]
    {
      this.globalElements, this.otherElements, aliases := globalElements, otherElements, map[];
      setAt, clock := map[], 0;
    }

    method FindInternalAlias(value: string) returns (found: bool)
      ensures found == NamesAlias(aliases, value)
    {
      var components := SplitString(value);
      for i := 0 to |components|
        invariant forall k :: 0 <= k < i ==> components[k] !in aliases
      {
        if components[i] in aliases {
          return true;
        }
      }
      return false;
    }

    method SetMediaAlias(name: string, value: string) returns (ok: bool)
      requires Valid()
      modifies `aliases, `setAt, `clock
      ensures Valid()
      ensures value == "" ==> ok && aliases == old(aliases) - {name}
      ensures value != "" ==> (ok <==> MaySet(globalElements + otherElements, old(aliases), name, value))
      ensures value != "" ==> aliases == if ok then old(aliases)[name := value] else old(aliases)
    {
      if value == "" {
        DeleteKeepsRank(aliases, setAt, clock, name);
        aliases, setAt := aliases - {name}, setAt - {name};
        return true;
      }
      if name in globalElements || name in otherElements {
        return false;
      }
      if !IsValidIdentifier(name) {
        return false;
      }
      var found := FindInternalAlias(value);
      if found {
        return false;
      }
      SetKeepsRank(aliases, setAt, clock, name, value);
      setAt, clock := setAt[name := clock], clock + 1;
      aliases := aliases[name := value];
      return true;
    }
  }

  /** Whatever alias another one's value mentions was set after it; only an alias
      that mentions itself is an exception. */
  ghost predicate Ranked(aliases: Table, setAt: map<string, nat>, clock: nat) {
    && aliases.Keys == setAt.Keys
    && (forall a :: a in aliases ==> IsValidIdentifier(a) && aliases[a] != "" && setAt[a] < clock)
    && (forall a, c :: a in aliases && c in aliases && c in Components(aliases[a]) && a != c ==> setAt[a] < setAt[c])
  }

  lemma DeleteKeepsRank(aliases: Table, setAt: map<string, nat>, clock: nat, name: string)
    requires Ranked(aliases, setAt, clock)
    ensures Ranked(aliases - {name}, setAt - {name}, clock)
  {
  }

  lemma SetKeepsRank(aliases: Table, setAt: map<string, nat>, clock: nat, name: string, value: string)
    requires Ranked(aliases, setAt, clock) && IsValidIdentifier(name) && value != "" && !NamesAlias(aliases, value)
    ensures Ranked(aliases[name := value], setAt[name := clock], clock + 1)
  {
    var aliases', setAt' := aliases[name := value], setAt[name := clock];
    forall a, c | a in aliases' && c in aliases' && c in Components(aliases'[a]) && a != c
      ensures setAt'[a] < setAt'[c]
    {
      assert a != name;
    }
  }

  // ----- Redirection -----

  datatype Caller = AddRequest | DescribeMedia

  /** The media that a request for an alias is redirected to. */
  function Redirected(caller: Caller, value: string, rest: string): string {
    if caller.DescribeMedia? then JoinMedia(value, rest)
    else if rest == "" then value
    else value + "/" + rest
  }

  /** AddRequest forgives one leading slash. */
  function Path(caller: Caller, media: string): string {
    if caller.AddRequest? && media != "" && media[0] == '/' then media[1..] else media
  }

  /** The alias that looking up a media runs into, if any. */
  function AliasHit(caller: Caller, elements: set<string>, aliases: Table, media: string): Option<string> {
    var first := FirstPart(Path(caller, media));
    if media == "" || first in elements || first !in aliases then None else Some(first)
  }

  function Redirect(caller: Caller, aliases: Table, media: string): string
    requires FirstPart(Path(caller, media)) in aliases
  {
    var path := Path(caller, media);
    Redirected(caller, aliases[FirstPart(path)], SecondPart(path))
  }

  /** What the value of an alias leads to first. */
  function Lead(caller: Caller, value: string): string {
    FirstPart(Path(caller, value))
  }

  /** Appending behind a slash does not change the first part. */
  lemma FirstPartOfPrefix(s: string, whole: string)
    requires s <= whole
    requires Find(s, '/', 0) < |s| || s == whole || whole[|s|] == '/'
    ensures FirstPart(whole) == FirstPart(s)
  {
    FindMeans(s, '/', 0);
    FindIs(whole, '/', 0, Find(s, '/', 0));
  }

  lemma FirstPartIs(s: string, a: string)
    requires '/' !in a
    ensures FirstPart(s) == a <==> s == a || a + "/" <= s
  {
    var p := Find(s, '/', 0);
    FindMeans(s, '/', 0);
    if s == a || a + "/" <= s {
      assert forall i :: 0 <= i < |a| ==> s[i] == a[i] && a[i] in a;
      FindIs(s, '/', 0, |a|);
    }
    if FirstPart(s) == a && p < |s| {
      assert s[..p + 1] == a + "/";
    }
  }

  /** Which media run into an alias: its name, alone or with more behind a slash; when a
      request is added, also with one slash in front. */
  lemma HitMeans(caller: Caller, elements: set<string>, aliases: Table, media: string, a: string)
    requires a != "" && '/' !in a
    ensures AliasHit(caller, elements, aliases, media) == Some(a) <==>
      && a in aliases && a !in elements
      && (|| media == a || a + "/" <= media
          || (caller.AddRequest? && (media == "/" + a || "/" + a + "/" <= media)))
  {
    var path := Path(caller, media);
    FirstPartIs(path, a);
    if path != media {
      assert media == "/" + path;
      assert "/" + a + "/" <= media <==> a + "/" <= path by {
        assert "/" + a + "/" == "/" + (a + "/");
      }
      assert media[0] == '/' && a[0] in a;
    }
  }

  /** Where a redirection leads depends on the alias only, not on the rest of the path. */
  lemma RedirectedLead(caller: Caller, value: string, rest: string)
    requires value != ""
    ensures Redirected(caller, value, rest) != ""
    ensures Lead(caller, Redirected(caller, value, rest)) == Lead(caller, value)
  {
    var whole := Redirected(caller, value, rest);
    assert value <= whole;
    if caller.AddRequest? {
      assert whole != value ==> whole[|value|] == '/';
      assert Path(caller, value) <= Path(caller, whole);
      FirstPartOfPrefix(Path(caller, value), Path(caller, whole));
    } else {
      if value[|value| - 1] == '/' {
        FindMeans(value, '/', 0);
        assert Find(value, '/', 0) <= |value| - 1;
      }
      FirstPartOfPrefix(value, whole);
    }
  }

  lemma LeadIsComponent(caller: Caller, value: string)
    requires Lead(caller, value) != ""
    ensures Lead(caller, value) in Components(value)
  {
    var path := Path(caller, value);
    assert Components(path)[0] == FirstPart(path);
    if path != value {
      LeadingSlash(value);
    }
  }

  lemma MovePiece(piece: seq<string>, before: seq<string>, behind: seq<string>)
    ensures piece + (before + behind) == (piece + before) + behind
    ensures before == [] ==> before + behind == behind
  {
  }

  lemma PartsBefore(s: string, t: string)
    ensures var whole := s + "/" + t;
      && FirstPart(whole) == FirstPart(s) && Find(whole, '/', 0) < |whole|
      && SecondPart(whole) == if Find(s, '/', 0) < |s| then SecondPart(s) + "/" + t else t
  {
    FindMeans(s, '/', 0);
    FindIs(s + "/" + t, '/', 0, Find(s, '/', 0));
  }

  /** A slash separates the components before it from those behind it. */
  lemma {:induction false} ComponentsAround(s: string, t: string)
    ensures Components(s + "/" + t) == Components(s) + Components(t)
  {
    PartsBefore(s, t);
    if Find(s, '/', 0) < |s| {
      ComponentsAround(SecondPart(s), t);
      MovePiece(Piece(s), Components(SecondPart(s)), Components(t));
    }
  }

  lemma NoComponents()
    ensures Components("") == []
  {
  }

  function WithoutEndingSlash(s: string): string {
    if s != "" && s[|s| - 1] == '/' then s[..|s| - 1] else s
  }

  function WithoutLeadingSlash(s: string): string {
    if s != "" && s[0] == '/' then s[1..] else s
  }

  lemma JoinedBySlash(a: string, b: string)
    requires a != "" && b != ""
    ensures JoinMedia(a, b) == WithoutEndingSlash(a) + "/" + WithoutLeadingSlash(b)
  {
    if a[|a| - 1] == '/' {
      assert a == a[..|a| - 1] + "/";
    }
    if b[0] == '/' {
      assert b == "/" + b[1..];
    }
  }

  lemma ComponentsOfJoin(a: string, b: string)
    ensures Components(JoinMedia(a, b)) == Components(a) + Components(b)
  {
    if a == "" || b == "" {
      NoComponents();
    } else {
      JoinedBySlash(a, b);
      ComponentsAround(WithoutEndingSlash(a), WithoutLeadingSlash(b));
      EndingSlash(a);
      LeadingSlash(b);
    }
  }

  lemma EndingSlash(s: string)
    ensures Components(WithoutEndingSlash(s)) == Components(s)
  {
    var trimmed := WithoutEndingSlash(s);
    if trimmed != s {
      NoComponents();
      assert s == trimmed + "/" + "";
      ComponentsAround(trimmed, "");
    }
  }

  lemma LeadingSlash(s: string)
    ensures Components(WithoutLeadingSlash(s)) == Components(s)
  {
    var trimmed := WithoutLeadingSlash(s);
    if trimmed != s {
      NoComponents();
      assert s == "" + "/" + trimmed;
      ComponentsAround("", trimmed);
    }
  }

  /** Either way of joining: the components of the value, then those of the rest. */
  lemma RedirectedComponents(caller: Caller, value: string, rest: string)
    ensures Components(Redirected(caller, value, rest)) == Components(value) + Components(rest)
  {
    NoComponents();
    if caller.DescribeMedia? {
      ComponentsOfJoin(value, rest);
    } else if rest != "" {
      ComponentsAround(value, rest);
    }
  }

  /** A redirection replaces the alias, the first component of the media, by the
      components of its value and keeps all the others. */
  lemma RedirectReplacesAlias(caller: Caller, aliases: Table, media: string)
    requires FirstPart(Path(caller, media)) in aliases && FirstPart(Path(caller, media)) != ""
    ensures var first := FirstPart(Path(caller, media));
      && Components(media) != [] && Components(media)[0] == first
      && Components(Redirect(caller, aliases, media)) == Components(aliases[first]) + Components(media)[1..]
  {
    var path := Path(caller, media);
    assert Components(path) == [FirstPart(path)] + Components(SecondPart(path));
    if path != media {
      LeadingSlash(media);
    }
    RedirectedComponents(caller, aliases[FirstPart(path)], SecondPart(path));
  }

  /** One caller's way of looking up: the alias that a media runs into, if any, and
      the media that it is then redirected to. */
  datatype Lookup = Lookup(hit: string -> Option<string>, redirect: string -> string)

  function LookupOf(caller: Caller, elements: set<string>, aliases: Table): Lookup {
    Lookup(
      media => AliasHit(caller, elements, aliases, media),
      media => if AliasHit(caller, elements, aliases, media).Some? then Redirect(caller, aliases, media) else media)
  }

  /** The alias that the lookup has run into after n redirections; None when it has
      ended before. */
  function HitAfter(lookup: Lookup, media: string, n: nat): Option<string>
    decreases n
  {
    if n == 0 || lookup.hit(media).None? then lookup.hit(media) else HitAfter(lookup, lookup.redirect(media), n - 1)
  }

  // ----- From alias to alias -----

  ghost predicate NoEmptyValue(aliases: Table) {
    forall a :: a in aliases ==> aliases[a] != ""
  }

  /** Where each alias that a lookup can run into leads. */
  function Leads(caller: Caller, elements: set<string>, aliases: Table): map<string, string> {
    map a | a in aliases && a !in elements :: Lead(caller, aliases[a])
  }

  function LedTo(leads: map<string, string>, a: Option<string>): Option<string> {
    if a.None? || a.value !in leads || leads[a.value] !in leads then None else Some(leads[a.value])
  }

  function Chain(leads: map<string, string>, first: Option<string>, n: nat): Option<string>
    decreases n
  {
    if n == 0 || first.None? then first else Chain(leads, LedTo(leads, first), n - 1)
  }

  lemma NextHit(caller: Caller, elements: set<string>, aliases: Table, media: string)
    requires AliasHit(caller, elements, aliases, media).Some? && NoEmptyValue(aliases)
    ensures AliasHit(caller, elements, aliases, Redirect(caller, aliases, media)) ==
      LedTo(Leads(caller, elements, aliases), AliasHit(caller, elements, aliases, media))
  {
    var path := Path(caller, media);
    RedirectedLead(caller, aliases[FirstPart(path)], SecondPart(path));
  }

  /** The next alias depends on nothing but the one before. */
  ghost predicate StepsAlong(lookup: Lookup, leads: map<string, string>) {
    forall media :: lookup.hit(media).Some? ==>
      lookup.hit(media).value in leads && lookup.hit(lookup.redirect(media)) == LedTo(leads, lookup.hit(media))
  }

  lemma LookupStepsAlong(caller: Caller, elements: set<string>, aliases: Table)
    requires NoEmptyValue(aliases)
    ensures StepsAlong(LookupOf(caller, elements, aliases), Leads(caller, elements, aliases))
  {
    var lookup, leads := LookupOf(caller, elements, aliases), Leads(caller, elements, aliases);
    forall media | lookup.hit(media).Some?
      ensures lookup.hit(media).value in leads && lookup.hit(lookup.redirect(media)) == LedTo(leads, lookup.hit(media))
    {
      NextHit(caller, elements, aliases, media);
    }
  }

  lemma {:induction false} HitsFormChain(lookup: Lookup, leads: map<string, string>, media: string, n: nat)
    requires StepsAlong(lookup, leads)
    ensures HitAfter(lookup, media, n) == Chain(leads, lookup.hit(media), n)
    decreases n
  {
    if n > 0 && lookup.hit(media).Some? {
      HitsFormChain(lookup, leads, lookup.redirect(media), n - 1);
    }
  }

  /** Following a chain climbs in the order in which the aliases were set, unless an
      alias leads to itself. */
  ghost predicate Climbs(leads: map<string, string>, setAt: map<string, nat>, clock: nat) {
    forall a :: a in leads ==>
      && a in setAt && setAt[a] < clock
      && (leads[a] in leads && leads[a] != a ==> leads[a] in setAt && setAt[a] < setAt[leads[a]])
  }

  lemma RankedClimbs(caller: Caller, elements: set<string>, aliases: Table, setAt: map<string, nat>, clock: nat)
    requires Ranked(aliases, setAt, clock)
    ensures Climbs(Leads(caller, elements, aliases), setAt, clock)
  {
    var leads := Leads(caller, elements, aliases);
    forall a | a in leads && leads[a] in leads && leads[a] != a ensures setAt[a] < setAt[leads[a]] {
      LeadIsComponent(caller, aliases[a]);
    }
  }

  /** The chain comes, after n steps, to an alias that leads to itself. */
  predicate SelfAt(leads: map<string, string>, first: Option<string>, n: nat) {
    var a := Chain(leads, first, n);
    a.Some? && a.value in leads && leads[a.value] == a.value
  }

  lemma {:induction false} ChainClimbs(leads: map<string, string>, setAt: map<string, nat>, clock: nat, a: string,
      n: nat)
    requires Climbs(leads, setAt, clock) && a in leads
    requires forall k :: 0 <= k < n ==> !SelfAt(leads, Some(a), k)
    ensures var b := Chain(leads, Some(a), n); b.Some? ==> b.value in leads && setAt[a] + n <= setAt[b.value]
    decreases n
  {
    var next := LedTo(leads, Some(a));
    if n > 0 && next.Some? {
      assert !SelfAt(leads, Some(a), 0);
      forall k | 0 <= k < n - 1 ensures !SelfAt(leads, next, k) {
        assert !SelfAt(leads, Some(a), k + 1);
      }
      ChainClimbs(leads, setAt, clock, next.value, n - 1);
    }
  }

  lemma {:induction false} SelfForever(leads: map<string, string>, first: Option<string>, m: nat, n: nat)
    requires SelfAt(leads, first, m)
    ensures Chain(leads, first, n).Some?
    decreases n, m
  {
    if n > 0 {
      SelfForever(leads, LedTo(leads, first), if m == 0 then 0 else m - 1, n - 1);
    }
  }

  lemma ChainEnds(leads: map<string, string>, setAt: map<string, nat>, clock: nat, first: Option<string>)
    requires Climbs(leads, setAt, clock) && (first.Some? ==> first.value in leads)
    requires forall k: nat :: !SelfAt(leads, first, k)
    ensures Chain(leads, first, clock) == None
  {
    if first.Some? {
      ChainClimbs(leads, setAt, clock, first.value, clock);
    }
  }

  /** The lookup comes to an end: some redirection runs into no further alias. */
  ghost predicate Ends(lookup: Lookup, media: string) {
    exists n: nat :: EndsBy(lookup, media, n)
  }

  predicate EndsBy(lookup: Lookup, media: string, n: nat) {
    HitAfter(lookup, media, n) == None
  }

  /** The lookup runs into an alias whose value leads back to itself. */
  ghost predicate RunsIntoSelfAlias(lookup: Lookup, leads: map<string, string>, media: string) {
    exists n: nat :: SelfAliasAt(lookup, leads, media, n)
  }

  predicate SelfAliasAt(lookup: Lookup, leads: map<string, string>, media: string, n: nat) {
    var hit := HitAfter(lookup, media, n);
    hit.Some? && hit.value in leads && leads[hit.value] == hit.value
  }

  lemma EndsIff(lookup: Lookup, leads: map<string, string>, setAt: map<string, nat>, clock: nat, media: string)
    requires StepsAlong(lookup, leads) && Climbs(leads, setAt, clock)
    ensures Ends(lookup, media) <==> !RunsIntoSelfAlias(lookup, leads, media)
  {
    var first := lookup.hit(media);
    if RunsIntoSelfAlias(lookup, leads, media) {
      var m: nat :| SelfAliasAt(lookup, leads, media, m);
      HitsFormChain(lookup, leads, media, m);
      forall n: nat ensures !EndsBy(lookup, media, n) {
        HitsFormChain(lookup, leads, media, n);
        SelfForever(leads, first, m, n);
      }
    } else {
      forall k: nat ensures !SelfAt(leads, first, k) {
        HitsFormChain(lookup, leads, media, k);
        assert !SelfAliasAt(lookup, leads, media, k);
      }
      ChainEnds(leads, setAt, clock, first);
      HitsFormChain(lookup, leads, media, clock);
      assert EndsBy(lookup, media, clock);
    }
  }

  /** With a table built by any series of SetMediaAlias calls: looking up a media
      ends if and only if it does not run into an alias that leads to itself. */
  lemma LookupEndsIff(caller: Caller, elements: set<string>, aliases: Table, setAt: map<string, nat>, clock: nat,
                      media: string)
    requires Ranked(aliases, setAt, clock)
    ensures var lookup := LookupOf(caller, elements, aliases);
      Ends(lookup, media) <==> !RunsIntoSelfAlias(lookup, Leads(caller, elements, aliases), media)
  {
    LookupStepsAlong(caller, elements, aliases);
    RankedClimbs(caller, elements, aliases, setAt, clock);
    EndsIff(LookupOf(caller, elements, aliases), Leads(caller, elements, aliases), setAt, clock, media);
  }

  /** No alias leads to itself. */
  ghost predicate NoSelfLead(leads: map<string, string>) {
    forall a :: a in leads ==> leads[a] != a
  }

  /** Looking up an alias by its bare name runs into it at once. */
  lemma NameHits(caller: Caller, elements: set<string>, aliases: Table, name: string)
    requires name in aliases && name !in elements && IsValidIdentifier(name)
    ensures AliasHit(caller, elements, aliases, name) == Some(name)
  {
    assert IsIdentifierChar(name[0]);
    FindIs(name, '/', 0, |name|);
    assert Path(caller, name) == name && FirstPart(name) == name;
  }

  ghost predicate AllEnd(caller: Caller, elements: set<string>, aliases: Table) {
    forall media :: Ends(LookupOf(caller, elements, aliases), media)
  }

  /** With a table built by any series of SetMediaAlias calls: every lookup ends if
      and only if no alias leads to itself. */
  lemma AllLookupsEndIff(caller: Caller, elements: set<string>, aliases: Table, setAt: map<string, nat>, clock: nat)
    requires Ranked(aliases, setAt, clock)
    ensures AllEnd(caller, elements, aliases) <==> NoSelfLead(Leads(caller, elements, aliases))
  {
    var lookup, leads := LookupOf(caller, elements, aliases), Leads(caller, elements, aliases);
    if a :| a in leads && leads[a] == a {
      NameHits(caller, elements, aliases, a);
      assert SelfAliasAt(lookup, leads, a, 0);
      LookupEndsIff(caller, elements, aliases, setAt, clock, a);
    } else {
      forall media ensures Ends(lookup, media) {
        LookupEndsIff(caller, elements, aliases, setAt, clock, media);
      }
    }
  }

  lemma NoSelfLeadAfterSet(caller: Caller, elements: set<string>, aliases: Table, name: string, value: string)
    requires NoSelfLead(Leads(caller, elements, aliases)) && name !in elements
    ensures NoSelfLead(Leads(caller, elements, aliases[name := value])) <==> Lead(caller, value) != name
  {
    var before, after := Leads(caller, elements, aliases), Leads(caller, elements, aliases[name := value]);
    assert name in after && after[name] == Lead(caller, value);
    assert forall a :: a in after && a != name ==> a in before && after[a] == before[a];
  }

  /** The test that SetMediaAlias would need: when all lookups end, those after an
      alias has been set all end if and only if its value does not lead to itself. */
  lemma SetKeepsEndingIff(caller: Caller, elements: set<string>, aliases: Table, setAt: map<string, nat>, clock: nat,
                          name: string, value: string)
    requires Ranked(aliases, setAt, clock) && value != "" && MaySet(elements, aliases, name, value)
    requires AllEnd(caller, elements, aliases)
    ensures AllEnd(caller, elements, aliases[name := value]) <==> Lead(caller, value) != name
  {
    AllLookupsEndIff(caller, elements, aliases, setAt, clock);
    NoSelfLeadAfterSet(caller, elements, aliases, name, value);
    SetKeepsRank(aliases, setAt, clock, name, value);
    AllLookupsEndIff(caller, elements, aliases[name := value], setAt[name := clock], clock + 1);
  }

  /** Nothing stops a new alias from being set to its own name, and then looking it
      up never ends. */
  lemma SelfAliasAccepted(caller: Caller, elements: set<string>, aliases: Table, setAt: map<string, nat>, clock: nat,
                          name: string)
    requires Ranked(aliases, setAt, clock)
    requires name !in elements && name !in aliases && IsValidIdentifier(name)
    ensures MaySet(elements, aliases, name, name)
    ensures !Ends(LookupOf(caller, elements, aliases[name := name]), name)
  {
    var aliases' := aliases[name := name];
    FindIs(name, '/', 0, |name|);
    assert name[0..|name|] == name && Components(name) == [name];
    NameHits(caller, elements, aliases', name);
    assert SelfAliasAt(LookupOf(caller, elements, aliases'), Leads(caller, elements, aliases'), name, 0);
    SetKeepsRank(aliases, setAt, clock, name, name);
    LookupEndsIff(caller, elements, aliases', setAt[name := clock], clock + 1, name);
  }
}
