/** Textual addresses `user@domain/resource` (libavproto/src/avif.cpp). */
module Address {
  import opened Std

  /** `proto::avAddress`; the resource is the one field whose presence is observed. */
  datatype Address = Address(username: string, domain: string, resource: Option<string>)

  const DEFAULT_DOMAIN: string := "avplayer.org"

  // ----- A backtracking matcher, just large enough for the one fixed pattern -----

  /** `Run(None)` is `.*`, `Run(Some(c))` is `[^c]*`; both are greedy, and so is `Opt`. */
  datatype Regex =
    | Lit(c: char)
    | Run(except: Option<char>)
    | Group(n: nat, body: Regex)
    | Cat(first: Regex, second: Regex)
    | Opt(body: Regex)

  /** A partial match: the position reached and the text captured by each group so far. */
  datatype Hit = Hit(end: nat, groups: map<nat, string>)

  /** The text between two positions. */
  function Text(s: string, i: nat, j: nat): string {
    if i <= j <= |s| then s[i..j] else ""
  }

  /** Every way to extend a greedy run from `i`, the longest first. */
  function RunHits(except: Option<char>, s: string, i: nat, groups: map<nat, string>): seq<Hit>
    decreases |s| - i
  {
    if i < |s| && except != Some(s[i])
    then RunHits(except, s, i + 1, groups) + [Hit(i, groups)]
    else [Hit(i, groups)]
  }

  /** Records in each hit what group `n`, opened at `from`, has matched. */
  function Capture(hits: seq<Hit>, n: nat, s: string, from: nat): seq<Hit> {
    if hits == [] then []
    else [Hit(hits[0].end, hits[0].groups[n := Text(s, from, hits[0].end)])] + Capture(hits[1..], n, s, from)
  }

  /** All ways `r` matches `s` from `h` on, in the order a backtracking matcher tries them. */
  function Matches(r: Regex, s: string, h: Hit): seq<Hit>
    decreases r, 0
  {
    match r
    case Lit(c) => if h.end < |s| && s[h.end] == c then [Hit(h.end + 1, h.groups)] else []
    case Run(except) => RunHits(except, s, h.end, h.groups)
    case Group(n, body) => Capture(Matches(body, s, h), n, s, h.end)
    case Cat(first, second) => Continue(Matches(first, s, h), second, s)
    case Opt(body) => Matches(body, s, h) + [h]
  }

  /** Tries `r` after each hit of `hits` in turn. */
  function Continue(hits: seq<Hit>, r: Regex, s: string): seq<Hit>
    decreases r, |hits| + 1
  {
    if hits == [] then [] else Matches(r, s, hits[0]) + Continue(hits[1..], r, s)
  }

  /** The leftmost match, and among those the first one tried. */
  function Search(r: Regex, s: string, from: nat): Option<Hit>
    requires from <= |s|
    decreases |s| - from
  {
    var hits := Matches(r, s, Hit(from, map[]));
    if hits != [] then Some(hits[0])
    else if from < |s| then Search(r, s, from + 1)
    else None
  }

  /** `(/(.*))?` */
  function Resource(): Regex {
    Opt(Group(3, Cat(Lit('/'), Group(4, Run(None)))))
  }

  /** The pattern `([^@]*)@([^/]*)(/(.*))?`. */
  function AddressPattern(): Regex {
    Cat(Group(1, Run(Some('@'))), Cat(Lit('@'), Cat(Group(2, Run(Some('/'))), Resource())))
  }

  function GroupText(h: Hit, n: nat): string {
    if n in h.groups then h.groups[n] else ""
  }

  /** `av_address_from_string` */
  function FromString(s: string): Address {
    match Search(AddressPattern(), s, 0)
    case Some(h) =>
      Address(GroupText(h, 1), GroupText(h, 2), if 3 in h.groups then Some(GroupText(h, 4)) else None)
    case None => Address(s, DEFAULT_DOMAIN, None)
  }

  /** `av_address_to_string` */
  function ToString(a: Address): string {
    if a.resource.Some? then a.username + "@" + a.domain + "/" + a.resource.value
    else a.username + "@" + a.domain
  }

  predicate WellFormed(a: Address) {
    '@' !in a.username && '/' !in a.domain
  }

  // ----- What the pattern means -----

  /** The position of the first `c` at or after `i`, or the end of the string. */
  function FindChar(c: char, s: string, i: nat): (j: nat)
    requires i <= |s|
    ensures i <= j <= |s|
    ensures c !in s[i..j]
    ensures j < |s| ==> s[j] == c
    decreases |s| - i
  {
    if i == |s| || s[i] == c then i
    else
      var j := FindChar(c, s, i + 1);
      assert s[i..j] == [s[i]] + s[i + 1..j];
      j
  }

  /** The match a backtracking matcher settles on when nothing after it fails. */
  ghost predicate First(r: Regex, s: string, h: Hit, x: Hit) {
    Matches(r, s, h) != [] && Matches(r, s, h)[0] == x
  }

  lemma {:induction false} RunFirst(c: char, s: string, h: Hit)
    requires h.end <= |s|
    ensures First(Run(Some(c)), s, h, Hit(FindChar(c, s, h.end), h.groups))
    decreases |s| - h.end
  {
    if h.end < |s| && s[h.end] != c {
      RunFirst(c, s, Hit(h.end + 1, h.groups));
    }
  }

  lemma {:induction false} RunAllFirst(s: string, h: Hit)
    requires h.end <= |s|
    ensures First(Run(None), s, h, Hit(|s|, h.groups))
    decreases |s| - h.end
  {
    if h.end < |s| {
      RunAllFirst(s, Hit(h.end + 1, h.groups));
    }
  }

  lemma GroupFirst(n: nat, body: Regex, s: string, h: Hit, x: Hit)
    requires First(body, s, h, x)
    ensures First(Group(n, body), s, h, Hit(x.end, x.groups[n := Text(s, h.end, x.end)]))
  {
  }

  lemma CatFirst(first: Regex, second: Regex, s: string, h: Hit, x: Hit, y: Hit)
    requires First(first, s, h, x) && First(second, s, x, y)
    ensures First(Cat(first, second), s, h, y)
  {
  }

  lemma OptFirst(body: Regex, s: string, h: Hit, x: Hit)
    requires if Matches(body, s, h) == [] then x == h else First(body, s, h, x)
    ensures First(Opt(body), s, h, x)
  {
  }

  /** No literal `c` in the text: no continuation that starts with `c` succeeds. */
  lemma {:induction false} ContinueNone(hits: seq<Hit>, c: char, r: Regex, s: string)
    requires c !in s
    ensures Continue(hits, Cat(Lit(c), r), s) == []
    decreases |hits|
  {
    if hits != [] {
      assert Matches(Lit(c), s, hits[0]) == [];
      assert Matches(Cat(Lit(c), r), s, hits[0]) == [];
      ContinueNone(hits[1..], c, r, s);
    }
  }

  lemma {:induction false} SearchNone(first: Regex, c: char, r: Regex, s: string, from: nat)
    requires from <= |s| && c !in s
    ensures Search(Cat(first, Cat(Lit(c), r)), s, from) == None
    decreases |s| - from
  {
    ContinueNone(Matches(first, s, Hit(from, map[])), c, r, s);
    if from < |s| {
      SearchNone(first, c, r, s, from + 1);
    }
  }

  /** The first match of `(/(.*))?`. */
  lemma ResourceFirst(s: string, h: Hit)
    requires h.end <= |s| && (h.end < |s| ==> s[h.end] == '/')
    ensures First(Resource(), s, h,
                  if h.end < |s| then Hit(|s|, h.groups[4 := s[h.end + 1..]][3 := s[h.end..]]) else h)
  {
    var rest := Group(4, Run(None));
    var body := Cat(Lit('/'), rest);
    if h.end < |s| {
      var x := Hit(h.end + 1, h.groups);
      assert First(Lit('/'), s, h, x);
      RunAllFirst(s, x);
      GroupFirst(4, Run(None), s, x, Hit(|s|, h.groups));
      var y := Hit(|s|, h.groups[4 := s[h.end + 1..]]);
      assert Text(s, x.end, |s|) == s[h.end + 1..];
      CatFirst(Lit('/'), rest, s, h, x, y);
      GroupFirst(3, body, s, h, y);
      assert Text(s, h.end, |s|) == s[h.end..];
      OptFirst(Group(3, body), s, h, Hit(|s|, y.groups[3 := s[h.end..]]));
    } else {
      assert Matches(Lit('/'), s, h) == [];
      assert Matches(body, s, h) == [];
      assert Matches(Group(3, body), s, h) == [];
      OptFirst(Group(3, body), s, h, h);
    }
  }

  /** The address a string denotes: split at the first `@`, then at the first `/` after it. */
  function SplitAddress(s: string): Address {
    if '@' !in s then Address(s, DEFAULT_DOMAIN, None)
    else
      var at := FindChar('@', s, 0);
      assert at < |s| by { assert s[0..|s|] == s; }
      var slash := FindChar('/', s, at + 1);
      Address(s[..at], s[at + 1..slash], if slash < |s| then Some(s[slash + 1..]) else None)
  }

  /** The greedy pattern reads an address exactly as `SplitAddress` does. */
  lemma FromStringSplits(s: string)
    ensures FromString(s) == SplitAddress(s)
  {
    var user := Group(1, Run(Some('@')));
    var domain := Group(2, Run(Some('/')));
    if '@' !in s {
      SearchNone(user, '@', Cat(domain, Resource()), s, 0);
    } else {
      var at := FindChar('@', s, 0);
      assert at < |s| by { assert s[0..|s|] == s; }
      var start := Hit(0, map[]);
      RunFirst('@', s, start);
      GroupFirst(1, Run(Some('@')), s, start, Hit(at, map[]));
      var afterUser := Hit(at, map[1 := s[..at]]);
      assert Text(s, 0, at) == s[..at];
      var afterAt := Hit(at + 1, afterUser.groups);
      assert First(Lit('@'), s, afterUser, afterAt);
      var slash := FindChar('/', s, at + 1);
      RunFirst('/', s, afterAt);
      GroupFirst(2, Run(Some('/')), s, afterAt, Hit(slash, afterAt.groups));
      var afterDomain := Hit(slash, afterAt.groups[2 := s[at + 1..slash]]);
      ResourceFirst(s, afterDomain);
      var end :=
        if slash < |s| then Hit(|s|, afterDomain.groups[4 := s[slash + 1..]][3 := s[slash..]]) else afterDomain;
      CatFirst(domain, Resource(), s, afterAt, afterDomain, end);
      CatFirst(Lit('@'), Cat(domain, Resource()), s, afterUser, afterAt, end);
      CatFirst(user, Cat(Lit('@'), Cat(domain, Resource())), s, start, afterUser, end);
    }
  }

  lemma {:induction false} FindCharUnique(c: char, s: string, i: nat, j: nat)
    requires i <= j <= |s| && c !in s[i..j] && (j < |s| ==> s[j] == c)
    ensures FindChar(c, s, i) == j
    decreases j - i
  {
    if i < j {
      assert s[i..j] == [s[i]] + s[i + 1..j];
      FindCharUnique(c, s, i + 1, j);
    }
  }

  /** Every address obtained from text is well formed. */
  lemma ParsedIsWellFormed(s: string)
    ensures WellFormed(FromString(s))
  {
    FromStringSplits(s);
    if '@' in s {
      var at := FindChar('@', s, 0);
      assert s[0..at] == s[..at];
    }
  }

  /** Printing and parsing are inverse on exactly the well-formed addresses. */
  lemma RoundTrip(a: Address)
    ensures FromString(ToString(a)) == a <==> WellFormed(a)
  {
    var s := ToString(a);
    FromStringSplits(s);
    ParsedIsWellFormed(s);
    if WellFormed(a) {
      var at := |a.username|;
      assert s[at] == '@';
      assert s[0..at] == a.username;
      FindCharUnique('@', s, 0, at);
      var slash := at + 1 + |a.domain|;
      assert s[at + 1..slash] == a.domain;
      FindCharUnique('/', s, at + 1, slash);
    }
  }

  /** The canonical text of a target: what the kernel indexes its key store by. */
  function Canonical(s: string): string {
    ToString(FromString(s))
  }

  lemma SplitPrints(s: string)
    ensures ToString(SplitAddress(s)) == if '@' in s then s else s + "@" + DEFAULT_DOMAIN
  {
    if '@' in s {
      var at := FindChar('@', s, 0);
      assert at < |s| by { assert s[0..|s|] == s; }
      var slash := FindChar('/', s, at + 1);
      assert s == s[..at] + "@" + s[at + 1..slash] + s[slash..];
      if slash < |s| {
        assert s[slash..] == "/" + s[slash + 1..];
      }
    }
  }

  /** Canonicalisation fixes exactly the strings that contain an `@`, and is idempotent. */
  lemma CanonicalText(s: string)
    ensures Canonical(s) == if '@' in s then s else s + "@avplayer.org"
    ensures Canonical(s) == s <==> '@' in s
    ensures Canonical(Canonical(s)) == Canonical(s)
  {
    var a := FromString(s);
    assert s + "@avplayer.org" == s + "@" + DEFAULT_DOMAIN;
    assert ToString(a) == if '@' in s then s else s + "@" + DEFAULT_DOMAIN by {
      FromStringSplits(s);
      SplitPrints(s);
    }
    assert '@' !in s ==> |ToString(a)| > |s|;
    assert FromString(ToString(a)) == a by {
      ParsedIsWellFormed(s);
      RoundTrip(a);
    }
  }

  /** Printed addresses are canonical names, whether or not the address is well formed. */
  lemma PrintedIsCanonical(a: Address)
    ensures '@' in ToString(a) && Canonical(ToString(a)) == ToString(a)
  {
    assert ToString(a)[|a.username|] == '@';
    CanonicalText(ToString(a));
  }
}
