/** The connection diagnostics script: the checks it makes on the parts of
    the database URL and the masking of the password in the URL it echoes.
    The URL parser is not part of this model; its parts are inputs. */
module DiagnoseConnection {
  import opened Common
  import Text

  /** A match of `/:([^:@]+)@/` spanning `s[i..j+1]`: a colon, one or more
      characters that are neither colon nor at sign, then an at sign. */
  predicate MatchAt(s: string, i: int, j: int)
  {
    0 <= i && i + 1 < j < |s| && s[i] == ':' && s[j] == '@'
    && forall k :: i < k < j ==> s[k] != ':' && s[k] != '@'
  }

  predicate HasMatchAt(s: string, i: int)
  {
    exists j | 0 <= j < |s| :: MatchAt(s, i, j)
  }

  /** From `k`, the first index holding a colon or an at sign (or the end). */
  function RunEnd(s: string, k: nat): (e: nat)
    requires k <= |s|
    ensures k <= e <= |s|
    ensures forall m :: k <= m < e ==> s[m] != ':' && s[m] != '@'
    ensures e < |s| ==> s[e] == ':' || s[e] == '@'
    decreases |s| - k
  {
    if k == |s| || s[k] == ':' || s[k] == '@' then k else RunEnd(s, k + 1)
  }

  /** The leftmost match starting at `i` or later, as the regular
      expression engine finds it. */
  function MatchFrom(s: string, i: nat): (found: Option<(nat, nat)>)
    requires i <= |s|
    ensures found.Some? ==> MatchAt(s, found.value.0, found.value.1) && i <= found.value.0
    ensures found.Some? ==> forall a :: i <= a < found.value.0 ==> !HasMatchAt(s, a)
    ensures found.None? ==> forall a :: i <= a ==> !HasMatchAt(s, a)
    decreases |s| - i
  {
    if i == |s| then None
    else if s[i] == ':' && RunEnd(s, i + 1) > i + 1 && RunEnd(s, i + 1) < |s| && s[RunEnd(s, i + 1)] == '@' then
      Some((i, RunEnd(s, i + 1)))
    else
      NoMatchHere(s, i);
      MatchFrom(s, i + 1)
  }

  /** The run from `k` ends at the first colon or at sign. */
  lemma {:induction false} RunEndAt(s: string, k: nat, j: nat)
    requires k <= j < |s| && (s[j] == ':' || s[j] == '@')
    requires forall m :: k <= m < j ==> s[m] != ':' && s[m] != '@'
    ensures RunEnd(s, k) == j
    decreases j - k
  {
    if k < j {
      RunEndAt(s, k + 1, j);
    }
  }

  /** When the scan at `i` fails, no match starts at `i`. */
  lemma {:induction false} NoMatchHere(s: string, i: nat)
    requires i < |s|
    requires !(s[i] == ':' && RunEnd(s, i + 1) > i + 1 && RunEnd(s, i + 1) < |s| && s[RunEnd(s, i + 1)] == '@')
    ensures !HasMatchAt(s, i)
  {
    if HasMatchAt(s, i) {
      var j :| 0 <= j < |s| && MatchAt(s, i, j);
      RunEndAt(s, i + 1, j);
      assert false;
    }
  }

  const MaskedPassword := ":****@"

  /** `dbUrl.replace(/:([^:@]+)@/, ":****@")`: only the leftmost match is
      replaced. */
  function Mask(s: string): (masked: string)
    ensures (forall a :: 0 <= a < |s| ==> !HasMatchAt(s, a)) ==> masked == s
    ensures forall i, j :: MatchAt(s, i, j) && (forall a :: 0 <= a < i ==> !HasMatchAt(s, a)) ==>
      masked == s[..i] + MaskedPassword + s[j + 1..]
  {
    match MatchFrom(s, 0)
    case None =>
      assert forall i, j :: MatchAt(s, i, j) ==> HasMatchAt(s, i);
      s
    case Some((i, j)) =>
      assert HasMatchAt(s, i);
      forall i', j' | MatchAt(s, i', j') && (forall a :: 0 <= a < i' ==> !HasMatchAt(s, a))
        ensures i' == i && j' == j
      {
        assert HasMatchAt(s, i');
        assert HasMatchAt(s, i);
      }
      s[..i] + MaskedPassword + s[j + 1..]
  }

  /** Masking a masked URL changes nothing: the mask it put in is itself
      the leftmost match. */
  lemma {:induction false} MaskIdempotent(s: string)
    ensures Mask(Mask(s)) == Mask(s)
  {
    match MatchFrom(s, 0)
    case None =>
    case Some((i, j)) =>
      var r := s[..i] + MaskedPassword + s[j + 1..];
      MaskOfLeftmost(s, i, j);
      MaskIsLeftmostMatch(s, r, i, j);
      MaskOfLeftmost(r, i, i + 5);
      MaskedSplits(s, r, i, j);
  }

  /** Mask's contract for one leftmost match. */
  lemma MaskOfLeftmost(s: string, i: nat, j: nat)
    requires MatchAt(s, i, j) && forall a :: 0 <= a < i ==> !HasMatchAt(s, a)
    ensures Mask(s) == s[..i] + MaskedPassword + s[j + 1..]
  {
  }

  /** In a masked URL the mask is the leftmost match. */
  lemma {:induction false} MaskIsLeftmostMatch(s: string, r: string, i: nat, j: nat)
    requires MatchAt(s, i, j) && (forall a :: 0 <= a < i ==> !HasMatchAt(s, a))
    requires r == s[..i] + MaskedPassword + s[j + 1..]
    ensures MatchAt(r, i, i + 5)
    ensures forall a :: 0 <= a < i ==> !HasMatchAt(r, a)
  {
    assert r[i..i + 6] == MaskedPassword;
    assert forall k :: i < k < i + 5 ==> r[k] == r[i..i + 6][k - i];
    forall a | 0 <= a < i
      ensures !HasMatchAt(r, a)
    {
      NoEarlierMatch(s, r, i, j, a);
    }
  }

  lemma {:induction false} MaskedSplits(s: string, r: string, i: nat, j: nat)
    requires i < j < |s|
    requires r == s[..i] + MaskedPassword + s[j + 1..]
    ensures r[..i] + MaskedPassword + r[i + 6..] == r
  {
    assert r[..i] == s[..i];
    assert r[i + 6..] == s[j + 1..];
  }

  lemma {:induction false} NoEarlierMatch(s: string, r: string, i: nat, j: nat, a: nat)
    requires MatchAt(s, i, j) && (forall a' :: 0 <= a' < i ==> !HasMatchAt(s, a'))
    requires r == s[..i] + MaskedPassword + s[j + 1..]
    requires a < i
    ensures !HasMatchAt(r, a)
  {
    forall k | 0 <= k < i
      ensures r[k] == s[k]
    {
      assert r[k] == (s[..i] + MaskedPassword)[k] == s[..i][k];
    }
    assert r[i] == ':';
    forall b | 0 <= b < |r|
      ensures !MatchAt(r, a, b)
    {
      if b < i {
        assert !HasMatchAt(s, a);
        assert !MatchAt(s, a, b);
      }
    }
  }

  /** The username check: a Supabase pooler username carries the project
      reference after a dot. */
  datatype UsernameVerdict = HasProjectRef | MaybeIncorrect

  function CheckUsername(username: string): (v: UsernameVerdict)
    ensures v == HasProjectRef <==> Text.Contains(username, ".")
  {
    if Text.Contains(username, ".") then HasProjectRef else MaybeIncorrect
  }

  datatype HostVerdict = Pooler | Direct | UnknownHost

  const PoolerDomain := "pooler.supabase.com"
  const SupabaseDomain := "supabase.co"

  /** The host check; the pooler test comes first. */
  function CheckHost(hostname: string): (v: HostVerdict)
    ensures v == Pooler <==> Text.Contains(hostname, PoolerDomain)
    ensures v == Direct <==> !Text.Contains(hostname, PoolerDomain) && Text.Contains(hostname, SupabaseDomain)
    ensures v == UnknownHost <==> !Text.Contains(hostname, SupabaseDomain)
  {
    PoolerContainsDomain(hostname);
    if Text.Contains(hostname, PoolerDomain) then Pooler
    else if Text.Contains(hostname, SupabaseDomain) then Direct
    else UnknownHost
  }

  /** Every pooler host also contains the direct-connection domain, so the
      order of the two tests matters: tested the other way round, no host
      would be judged a pooler. */
  lemma {:induction false} PoolerContainsDomain(hostname: string)
    ensures Text.Contains(hostname, PoolerDomain) ==> Text.Contains(hostname, SupabaseDomain)
  {
    if Text.Contains(hostname, PoolerDomain) {
      var i :| 0 <= i <= |hostname| - |PoolerDomain| && Text.OccursAt(hostname, PoolerDomain, i);
      var found := hostname[i..i + 19];
      assert found == PoolerDomain;
      assert |PoolerDomain| == 19;
      assert forall k :: 0 <= k < 11 ==> hostname[i + 7..i + 18][k] == found[7 + k] == SupabaseDomain[k];
      Text.ContainsAt(hostname, SupabaseDomain, i + 7);
    }
  }

  datatype PortVerdict = SessionMode | TransactionMode | UnexpectedPort

  /** The port check. */
  function CheckPort(port: string): (v: PortVerdict)
    ensures v == SessionMode <==> port == "5432"
    ensures v == TransactionMode <==> port == "6543"
  {
    if port == "5432" then SessionMode
    else if port == "6543" then TransactionMode
    else UnexpectedPort
  }

  /** `pathname.substring(1)`: the path without its leading character; an
      empty path gives the empty name. */
  function DatabaseName(pathname: string): (name: string)
    ensures |pathname| > 0 ==> pathname == pathname[..1] + name
    ensures |pathname| == 0 ==> name == ""
  {
    if |pathname| == 0 then "" else pathname[1..]
  }

  /** The parts of the URL the script inspects, as the URL parser yields
      them. */
  datatype UrlParts = UrlParts(protocol: string, username: string, hostname: string, port: string, pathname: string)

  datatype Report = Report(database: string, username: UsernameVerdict, host: HostVerdict,
                           port: PortVerdict, masked: string)

  /** The whole diagnosis of `dbUrl`; `parts` is None when the URL parser
      throws, and the script then exits without a report. */
  function Diagnose(dbUrl: string, parts: Option<UrlParts>): (report: Option<Report>)
    ensures report.Some? <==> parts.Some?
    ensures report.Some? ==> report.value.masked == Mask(dbUrl)
    ensures report.Some? ==> report.value.host == CheckHost(parts.value.hostname)
    ensures report.Some? ==> report.value.port == CheckPort(parts.value.port)
    ensures report.Some? ==> report.value.username == CheckUsername(parts.value.username)
    ensures report.Some? ==> report.value.database == DatabaseName(parts.value.pathname)
  {
    match parts
    case None => None
    case Some(p) =>
      Some(Report(DatabaseName(p.pathname), CheckUsername(p.username), CheckHost(p.hostname),
                  CheckPort(p.port), Mask(dbUrl)))
  }
}
