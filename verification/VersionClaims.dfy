/**
 The version gate (scripts/check-version.ts): its version order, the open claims it
 reads from a snapshot of the refs, its decision, and the ladder all passing branches
 form.  What git answers, and what a title names, are inputs.
 */
module VersionClaims {
  import opened Wrappers
  import opened JavaScriptText
  import VersionOrder

  // ---- Versions ----

  /** Major, minor and patch number, and the text between the first and the second dash. */
  datatype SemVer = SemVer(major: nat, minor: nat, patch: nat, rest: string)

  predicate IsPrereleaseChar(c: char) {
    IsDigit(c) || 'A' <= c <= 'Z' || 'a' <= c <= 'z' || c == '.' || c == '-'
  }

  predicate IsCore(segments: seq<string>) {
    |segments| == 3 && AllDigits(segments[0]) && AllDigits(segments[1]) && AllDigits(segments[2])
  }

  predicate IsPrerelease(s: string) {
    s != "" && forall c | c in s :: IsPrereleaseChar(c)
  }

  function ParseSemver(version: string): Option<SemVer> {
    var core := Split(Before(version, '-'), '.');
    var tail := Behind(version, '-');
    if !IsCore(core) || (tail.Some? && !IsPrerelease(tail.value)) then None
    else
      var rest := if tail.None? then "" else Before(tail.value, '-');
      Some(SemVer(Value(core[0]), Value(core[1]), Value(core[2]), rest))
  }

  function CompareNumbers(x: nat, y: nat): int {
    if x == y then 0 else if x < y then -1 else 1
  }

  function CompareParsed(a: SemVer, b: SemVer): int {
    if a.major != b.major then CompareNumbers(a.major, b.major)
    else if a.minor != b.minor then CompareNumbers(a.minor, b.minor)
    else if a.patch != b.patch then CompareNumbers(a.patch, b.patch)
    else if a.rest == b.rest then 0
    else if a.rest == "" then 1
    else if b.rest == "" then -1
    else if TextLess(a.rest, b.rest) then -1 else 1
  }

  /** None is NaN. */
  function Compare(a: string, b: string): Option<int> {
    var x, y := ParseSemver(a), ParseSemver(b);
    if x.None? || y.None? then None else Some(CompareParsed(x.value, y.value))
  }

  predicate Parses(v: string) {
    ParseSemver(v).Some?
  }

  lemma ParsedIsOrder(a: SemVer, b: SemVer, c: SemVer)
    ensures CompareParsed(a, b) == -CompareParsed(b, a)
    ensures CompareParsed(a, b) == 0 <==> a == b
    ensures CompareParsed(a, b) <= 0 && CompareParsed(b, c) <= 0 ==> CompareParsed(a, c) <= 0
  {
    TextAntisymmetric(a.rest, b.rest);
    TextAntisymmetric(b.rest, c.rest);
    TextAntisymmetric(a.rest, c.rest);
    if CompareText(a.rest, b.rest) <= 0 && CompareText(b.rest, c.rest) <= 0 { TextTransitive(a.rest, b.rest, c.rest); }
  }

  // ---- Agreement with the release check ----

  lemma NoPlus(v: string)
    requires Parses(v) && Behind(v, '-').None?
    ensures '+' !in v && Before(v, '+') == v
  {
    assert Before(v, '-') == v;
    SplitKeeps(v, '.', '+');
  }

  /** A character of the text other than the separator is a character of some part. */
  lemma {:induction false} SplitKeeps(s: string, separator: char, c: char)
    requires c != separator && forall p | p in Split(s, separator) :: c !in p
    ensures c !in s
    decreases |s|
  {
    var i := IndexOf(s, separator, 0);
    if i.None? {
      assert s in Split(s, separator);
    } else {
      var front, rest := s[..i.value], s[i.value + 1..];
      assert Split(s, separator) == [front] + Split(rest, separator);
      SplitKeeps(rest, separator, c);
      assert front in Split(s, separator) && s == front + [separator] + rest;
    }
  }

  lemma PartsAgree(v: string)
    requires Parses(v) && Behind(v, '-').None?
    ensures var s := ParseSemver(v).value;
            s.rest == "" && VersionOrder.SplitSemver(v)
                == VersionOrder.Parts([Some(s.major), Some(s.minor), Some(s.patch)], None)
  {
    NoPlus(v);
    var core := Split(v, '.');
    DigitsParse(core[0]);
    DigitsParse(core[1]);
    DigitsParse(core[2]);
  }

  /** On versions without a prerelease both scripts agree on which of two versions is greater. */
  lemma AgreesWithoutPrerelease(a: string, b: string)
    requires Parses(a) && Parses(b) && Behind(a, '-').None? && Behind(b, '-').None?
    ensures Compare(a, b).Some? && VersionOrder.Compare(a, b).Some?
    ensures VersionOrder.SameSign(Compare(a, b).value, VersionOrder.Compare(a, b).value)
  {
    PartsAgree(a);
    PartsAgree(b);
    NumbersAgree(ParseSemver(a).value, ParseSemver(b).value);
  }

  lemma NumbersAgree(a: SemVer, b: SemVer)
    requires a.rest == b.rest == ""
    ensures var p := VersionOrder.Parts([Some(a.major), Some(a.minor), Some(a.patch)], None);
            var q := VersionOrder.Parts([Some(b.major), Some(b.minor), Some(b.patch)], None);
            var r := VersionOrder.CompareFrom(p, q, 0);
            r.Some? && VersionOrder.SameSign(CompareParsed(a, b), r.value)
  {
    var v := VersionOrder.Version(a.major, a.minor, a.patch, [], "");
    var w := VersionOrder.Version(b.major, b.minor, b.patch, [], "");
    assert VersionOrder.PartsOf(v).core == [Some(a.major), Some(a.minor), Some(a.patch)];
    assert VersionOrder.PartsOf(w).core == [Some(b.major), Some(b.minor), Some(b.patch)];
    VersionOrder.PartsCompare(v, w);
  }

  /** What stands behind a second dash plays no part in this script's order. */
  lemma SecondDashIgnored(core: string, x: string, s: string, t: string)
    requires IsCore(Split(core, '.')) && '-' !in core && '-' !in x
    requires IsPrerelease(x) && IsPrerelease(s) && IsPrerelease(t)
    ensures Compare(core + "-" + x + "-" + s, core + "-" + x + "-" + t) == Some(0)
  {
    DashedParses(core, x, s);
    DashedParses(core, x, t);
  }

  lemma DashedParses(core: string, x: string, s: string)
    requires IsCore(Split(core, '.')) && '-' !in core && '-' !in x && IsPrerelease(x) && IsPrerelease(s)
    ensures var c := Split(core, '.');
            ParseSemver(core + "-" + x + "-" + s) == Some(SemVer(Value(c[0]), Value(c[1]), Value(c[2]), x))
  {
    var tail := x + "-" + s;
    assert core + "-" + x + "-" + s == core + ['-'] + tail;
    VersionOrder.CutAt(core + "-" + x + "-" + s, '-', core, tail);
    assert tail == x + ['-'] + s;
    VersionOrder.CutAt(tail, '-', x, s);
    forall c | c in tail ensures IsPrereleaseChar(c) {}
  }

  /** Prerelease texts are compared as they stand, so a ninth one is put above a tenth. */
  lemma PrereleaseIsText(core: string, x: string, y: string)
    requires IsCore(Split(core, '.')) && '-' !in core && '-' !in x && '-' !in y && IsPrerelease(x) && IsPrerelease(y)
    ensures Compare(core + "-" + x, core + "-" + y) == Some(if x == y then 0 else if TextLess(x, y) then -1 else 1)
  {
    SinglePrerelease(core, x);
    SinglePrerelease(core, y);
  }

  lemma SinglePrerelease(core: string, x: string)
    requires IsCore(Split(core, '.')) && '-' !in core && '-' !in x && IsPrerelease(x)
    ensures var c := Split(core, '.');
            ParseSemver(core + "-" + x) == Some(SemVer(Value(c[0]), Value(c[1]), Value(c[2]), x))
  {
    assert core + "-" + x == core + ['-'] + x;
    VersionOrder.CutAt(core + "-" + x, '-', core, x);
    VersionOrder.NoCut(x, '-');
  }

  // ---- Open claims ----

  datatype Claim = Claim(ref: string, version: string)

  /** What a git command gives: nothing at all, a failure, or its answer. */
  datatype Reply<T> = Unavailable | Failed | Answer(value: T)

  datatype Shown = ShowUnavailable | ShowFailed | NotJson | NoVersion | Declares(version: string)

  /** One state of the repository as git reports it. */
  datatype Repository = Repository(
    refs: Reply<seq<string>>,
    base: Reply<string>,                   // refs/remotes/origin/main
    baseVersion: Reply<Option<string>>,    // what package.json declares there
    remoteHead: Reply<string>,             // target of refs/remotes/origin/HEAD
    ancestry: string -> Reply<bool>,       // whether a ref is an ancestor of the base
    show: string -> Shown)

  /** One run of the gate: the branch checked out, or none, the name CI carries, and what the tree and the title say. */
  datatype Run = Run(head: Reply<string>, ci: Option<string>, pushToMain: bool, version: Option<string>,
                     title: Option<string>)

  datatype Refusal =
    | GitUnavailable | ListingFailed | BaseUnresolved | ClaimUnknown(ref: string)
    | NoTreeVersion | InvalidVersion | BaseUnknown | BaseInvalid | NotAboveBase | TitleMismatch
    | AlreadyClaimed(refs: seq<string>)

  datatype ClaimsResult = Claims(claims: seq<Claim>, detached: bool) | ClaimsRefused(reason: Refusal)

  const ORIGIN_HEAD := "refs/remotes/origin/HEAD"

  function LocalRef(branch: string): string { "refs/heads/" + branch }

  function RemoteRef(branch: string): string { "refs/remotes/origin/" + branch }

  function OwnBranch(run: Run): Option<string> {
    if run.head.Answer? && run.head.value != "" then Some(run.head.value) else run.ci
  }

  predicate HeadIsAlias(repo: Repository) {
    && repo.remoteHead.Answer? && repo.refs.Answer?
    && RemoteRef("") <= repo.remoteHead.value
    && ORIGIN_HEAD in repo.refs.value && repo.remoteHead.value in repo.refs.value
  }

  /** Refs that are no claim of another branch, whatever they declare. */
  predicate NotForeign(repo: Repository, branch: Option<string>, ref: string) {
    || (HeadIsAlias(repo) && ref == ORIGIN_HEAD)
    || (branch.Some? && (ref == LocalRef(branch.value) || ref == RemoteRef(branch.value)))
    || ref == LocalRef("main") || ref == RemoteRef("main")
  }

  /** The claims of a list of refs, or why one of them cannot be read. */
  function ClaimsOf(repo: Repository, branch: Option<string>, refs: seq<string>): ClaimsResult
    decreases |refs|
  {
    if refs == [] then Claims([], branch.None?)
    else
      var front, ref := ClaimsOf(repo, branch, refs[..|refs| - 1]), refs[|refs| - 1];
      if front.ClaimsRefused? || NotForeign(repo, branch, ref) then front
      else
        match repo.ancestry(ref)
        case Unavailable => ClaimsRefused(GitUnavailable)
        case Failed => ClaimsRefused(ClaimUnknown(ref))
        case Answer(merged) =>
          if merged then front
          else
            match repo.show(ref)
            case ShowUnavailable => ClaimsRefused(GitUnavailable)
            case Declares(version) =>
              if version == "" then ClaimsRefused(ClaimUnknown(ref))
                  else front.(claims := front.claims + [Claim(ref, version)])
            case _ => ClaimsRefused(ClaimUnknown(ref))
  }

  function OpenClaims(repo: Repository, run: Run): ClaimsResult {
    if repo.refs.Unavailable? then ClaimsRefused(GitUnavailable)
    else if repo.refs.Failed? then ClaimsRefused(ListingFailed)
    else if repo.base.Unavailable? then ClaimsRefused(GitUnavailable)
    else if repo.base.Failed? then ClaimsRefused(BaseUnresolved)
    else if run.head.Unavailable? || repo.remoteHead.Unavailable? then ClaimsRefused(GitUnavailable)
    else ClaimsOf(repo, OwnBranch(run), repo.refs.value)
  }

  method ReadOpenClaims(repo: Repository, run: Run) returns (r: ClaimsResult)
    ensures r == OpenClaims(repo, run)
  {
    if repo.refs.Unavailable? { return ClaimsRefused(GitUnavailable); }
    if repo.refs.Failed? { return ClaimsRefused(ListingFailed); }
    if repo.base.Unavailable? { return ClaimsRefused(GitUnavailable); }
    if repo.base.Failed? { return ClaimsRefused(BaseUnresolved); }
    if run.head.Unavailable? { return ClaimsRefused(GitUnavailable); }
    var branch := OwnBranch(run);
    if repo.remoteHead.Unavailable? { return ClaimsRefused(GitUnavailable); }
    var claims: seq<Claim> := [];
    var refs := repo.refs.value;
    for n := 0 to |refs|
      invariant ClaimsOf(repo, branch, refs[..n]) == Claims(claims, branch.None?)
    {
      var ref := refs[n];
      assert refs[..n + 1][..n] == refs[..n];
      ghost var next := ClaimsOf(repo, branch, refs[..n + 1]);
      if NotForeign(repo, branch, ref) { continue; }
      var ancestry := repo.ancestry(ref);
      if ancestry.Answer? && ancestry.value { continue; }
      var refusal: Option<Refusal> := None;
      if ancestry.Unavailable? {
        refusal := Some(GitUnavailable);
      } else if ancestry.Failed? {
        refusal := Some(ClaimUnknown(ref));
      } else {
        var show := repo.show(ref);
        if show.ShowUnavailable? {
          refusal := Some(GitUnavailable);
        } else if !show.Declares? || show.version == "" {
          refusal := Some(ClaimUnknown(ref));
        } else {
          claims := claims + [Claim(ref, show.version)];
        }
      }
      if refusal.Some? {
        assert next == ClaimsRefused(refusal.value);
        RefusalStays(repo, branch, refs, n + 1);
        return ClaimsRefused(refusal.value);
      }
    }
    assert refs[..|refs|] == refs;
    return Claims(claims, branch.None?);
  }

  lemma {:induction false} RefusalStays(repo: Repository, branch: Option<string>, refs: seq<string>, n: nat)
    requires n <= |refs| && ClaimsOf(repo, branch, refs[..n]).ClaimsRefused?
    ensures ClaimsOf(repo, branch, refs) == ClaimsOf(repo, branch, refs[..n])
    decreases |refs| - n
  {
    if n == |refs| {
      assert refs[..n] == refs;
    } else {
      assert refs[..n + 1][..n] == refs[..n];
      RefusalStays(repo, branch, refs, n + 1);
    }
  }

  /** Claims that were read are those of exactly the foreign refs that are no ancestors of the base. */
  lemma {:induction false} ClaimsAreExact(repo: Repository, branch: Option<string>, refs: seq<string>, ref: string,
                                          version: string)
    requires ClaimsOf(repo, branch, refs).Claims?
    ensures Claim(ref, version) in ClaimsOf(repo, branch, refs).claims
            <==> ref in refs && !NotForeign(repo, branch, ref) && repo.ancestry(ref) == Answer(false)
                 && version != "" && repo.show(ref) == Declares(version)
    decreases |refs|
  {
    if refs != [] {
      ClaimsAreExact(repo, branch, refs[..|refs| - 1], ref, version);
      assert refs == refs[..|refs| - 1] + [refs[|refs| - 1]];
    }
  }

  /** No claim that is not foreign, unmerged and read is skipped silently. */
  lemma {:induction false} NoneSkipped(repo: Repository, branch: Option<string>, refs: seq<string>, ref: string)
    requires ClaimsOf(repo, branch, refs).Claims? && ref in refs && !NotForeign(repo, branch, ref)
             && repo.ancestry(ref) != Answer(true)
    ensures repo.show(ref).Declares? && Claim(ref, repo.show(ref).version) in ClaimsOf(repo, branch, refs).claims
    decreases |refs|
  {
    if ref != refs[|refs| - 1] {
      assert refs == refs[..|refs| - 1] + [refs[|refs| - 1]];
      NoneSkipped(repo, branch, refs[..|refs| - 1], ref);
    }
  }

  /** The highest claim by this script's order: one of the claims, above or equal to every claim that parses. */
  method HighestOpenClaim(claims: seq<Claim>) returns (best: Option<string>)
    ensures IsHighest(claims, best)
  {
    best := None;
    for n := 0 to |claims|
      invariant IsHighest(claims[..n], best)
    {
      var version := claims[n].version;
      HighestStep(claims[..n], claims[n], best);
      assert claims[..n + 1] == claims[..n] + [claims[n]];
      if !Parses(version) { continue; }
      if best.None? || Above(version, best.value) { best := Some(version); }
    }
    assert claims[..|claims|] == claims;
  }

  /** None when no claim parses; otherwise one of the claims, above or equal to every claim that parses. */
  ghost predicate IsHighest(claims: seq<Claim>, best: Option<string>) {
    if best.None? then forall i | 0 <= i < |claims| :: !Parses(claims[i].version)
    else
      && Parses(best.value) && (exists i :: 0 <= i < |claims| && claims[i].version == best.value)
      && (forall i | 0 <= i < |claims| && Parses(claims[i].version) :: AtMost(claims[i].version, best.value))
  }

  lemma HighestStep(claims: seq<Claim>, claim: Claim, best: Option<string>)
    requires IsHighest(claims, best)
    ensures var higher := Parses(claim.version) && (best.None? || Above(claim.version, best.value));
            IsHighest(claims + [claim], if higher then Some(claim.version) else best)
  {
    var all, version := claims + [claim], claim.version;
    if Parses(version) && (best.None? || Above(version, best.value)) {
      if best.Some? { HigherClaim(claims, best.value, version); }
      AtMostSelf(version);
      assert all[|claims|].version == version;
    } else if best.Some? {
      var i :| 0 <= i < |claims| && claims[i].version == best.value;
      assert all[i].version == best.value;
    }
  }

  lemma HigherClaim(claims: seq<Claim>, best: string, version: string)
    requires IsHighest(claims, Some(best)) && Parses(version) && Above(version, best)
    ensures forall i | 0 <= i < |claims| && Parses(claims[i].version) :: AtMost(claims[i].version, version)
  {
    forall i | 0 <= i < |claims| && Parses(claims[i].version) ensures AtMost(claims[i].version, version) {
      AtMostTransitive(claims[i].version, best, version);
    }
  }

  predicate Above(a: string, b: string) {
    Compare(a, b).Some? && Compare(a, b).value > 0
  }

  predicate AtMost(a: string, b: string) {
    Compare(a, b).Some? && Compare(a, b).value <= 0
  }

  lemma AtMostSelf(a: string)
    requires Parses(a)
    ensures AtMost(a, a)
  {
  }

  lemma AtMostTransitive(a: string, b: string, c: string)
    requires AtMost(a, b) && Compare(c, b).Some? && Compare(c, b).value > 0
    ensures AtMost(a, c)
  {
    var x, y, z := ParseSemver(a).value, ParseSemver(b).value, ParseSemver(c).value;
    ParsedIsOrder(x, y, z);
    ParsedIsOrder(z, y, x);
  }

  // ---- The gate ----

  datatype Decision = Pass(version: string) | Refuse(reason: Refusal)

  function Decide(version: string, baseVersion: Option<string>, title: Option<string>): Decision {
    if !Parses(version) then Refuse(InvalidVersion)
    else if baseVersion.None? then Refuse(BaseUnknown)
    else if !Parses(baseVersion.value) then Refuse(BaseInvalid)
    else if Compare(version, baseVersion.value).value <= 0 then Refuse(NotAboveBase)
    else if title.Some? && title.value != version then Refuse(TitleMismatch)
    else Pass(version)
  }

  function Claiming(claims: seq<Claim>, candidate: string): (refs: seq<string>)
    ensures refs == [] <==> forall i | 0 <= i < |claims| :: claims[i].version != candidate
  {
    if claims == [] then []
    else
      assert forall i | 1 <= i < |claims| :: claims[i] == claims[1..][i - 1];
      (if claims[0].version == candidate then [claims[0].ref] else []) + Claiming(claims[1..], candidate)
  }

  datatype Verdict = SkippedOnMain | Refused(reason: Refusal) | Passed(version: string)

  function Gate(repo: Repository, run: Run): Verdict {
    if run.head.Unavailable? then Refused(GitUnavailable)
    else if run.pushToMain || run.head == Answer("main") then SkippedOnMain
    else if repo.baseVersion.Unavailable? then Refused(GitUnavailable)
    else if repo.baseVersion.Failed? then Refused(BaseUnresolved)
    else if run.version.None? then Refused(NoTreeVersion)
    else
      var decision := Decide(run.version.value, repo.baseVersion.value, run.title);
      if decision.Refuse? then Refused(decision.reason)
      else
        var claims := OpenClaims(repo, run);
        if claims.ClaimsRefused? then Refused(claims.reason)
        else
          var claiming := Claiming(claims.claims, decision.version);
          if claiming != [] then Refused(AlreadyClaimed(claiming)) else Passed(decision.version)
  }

  /** What a listed ref is to a run under the name `branch`: the alias of another ref, the branch itself,
      main, merged into the base, or open under a version of its own. */
  ghost predicate Harmless(repo: Repository, branch: Option<string>, ref: string, version: string) {
    || (ref == "refs/remotes/origin/HEAD"
        && repo.remoteHead.Answer? && repo.refs.Answer? && ref in repo.refs.value
        && repo.remoteHead.value in repo.refs.value && "refs/remotes/origin/" <= repo.remoteHead.value)
    || (branch.Some? && (ref == "refs/heads/" + branch.value || ref == "refs/remotes/origin/" + branch.value))
    || ref == "refs/heads/main" || ref == "refs/remotes/origin/main"
    || repo.ancestry(ref) == Answer(true)
    || (repo.ancestry(ref) == Answer(false)
        && exists other :: other != "" && other != version && repo.show(ref) == Declares(other))
  }

  lemma {:induction false} ClaimsReadExactly(repo: Repository, branch: Option<string>, refs: seq<string>,
                                             version: string)
    requires repo.refs.Answer?
    ensures ClaimsOf(repo, branch, refs).Claims? && Claiming(ClaimsOf(repo, branch, refs).claims, version) == []
            <==> forall ref | ref in refs :: Harmless(repo, branch, ref, version)
    decreases |refs|
  {
    if refs != [] {
      var front, last := refs[..|refs| - 1], refs[|refs| - 1];
      assert refs == front + [last];
      ClaimsReadExactly(repo, branch, front, version);
      if ClaimsOf(repo, branch, front).Claims? { LastHarmless(repo, branch, front, last, version); }
      assert forall ref :: ref in refs <==> ref in front || ref == last;
    }
  }

  lemma LastHarmless(repo: Repository, branch: Option<string>, front: seq<string>, last: string, version: string)
    requires repo.refs.Answer? && ClaimsOf(repo, branch, front).Claims?
    ensures var r := ClaimsOf(repo, branch, front + [last]);
            r.Claims? && Claiming(r.claims, version) == []
            <==> Claiming(ClaimsOf(repo, branch, front).claims, version) == [] && Harmless(repo, branch, last, version)
  {
    var before, r := ClaimsOf(repo, branch, front), ClaimsOf(repo, branch, front + [last]);
    assert (front + [last])[..|front|] == front;
    if r.Claims? && r.claims != before.claims {
      assert r.claims == before.claims + [Claim(last, repo.show(last).version)];
      assert forall i | 0 <= i < |before.claims| :: r.claims[i] == before.claims[i];
      assert r.claims[|before.claims|].version == repo.show(last).version;
    }
  }

  /** A run passes exactly when it is not on main, its version is valid, above the base's and the one its
      title names, if any, git answers throughout, and no listed ref but its own branch, main, merged work
      and the alias fails to declare a version or declares this one. */
  lemma GateExactly(repo: Repository, run: Run, version: string)
    ensures Gate(repo, run) == Passed(version)
            <==> && !run.pushToMain && !run.head.Unavailable? && run.head != Answer("main")
                 && run.version == Some(version)
                 && (run.title.None? || run.title == Some(version))
                 && (exists base :: repo.baseVersion == Answer(Some(base))
                       && Compare(version, base).Some? && Compare(version, base).value > 0)
                 && repo.refs.Answer? && repo.base.Answer? && !repo.remoteHead.Unavailable?
                 && var branch := if run.head.Answer? && run.head.value != "" then Some(run.head.value) else run.ci;
                    forall ref | ref in repo.refs.value :: Harmless(repo, branch, ref, version)
  {
    GateSteps(repo, run, version);
    if repo.refs.Answer? { ClaimsReadExactly(repo, OwnBranch(run), repo.refs.value, version); }
    if repo.baseVersion.Answer? && run.version.Some? {
      DecidesExactly(run.version.value, repo.baseVersion.value, run.title, version);
    }
  }

  lemma {:induction false} ClaimingExactly(claims: seq<Claim>, candidate: string, ref: string)
    ensures ref in Claiming(claims, candidate) <==> Claim(ref, candidate) in claims
    decreases |claims|
  {
    if claims != [] {
      ClaimingExactly(claims[1..], candidate, ref);
      assert claims == [claims[0]] + claims[1..];
    }
  }

  /** Reading the claims never finds one claimed. */
  lemma {:induction false} ReadingRefusals(repo: Repository, branch: Option<string>, refs: seq<string>)
    ensures ClaimsOf(repo, branch, refs).ClaimsRefused? ==>
              ClaimsOf(repo, branch, refs).reason.GitUnavailable? || ClaimsOf(repo, branch, refs).reason.ClaimUnknown?
    decreases |refs|
  {
    if refs != [] { ReadingRefusals(repo, branch, refs[..|refs| - 1]); }
  }

  lemma GateClaimed(repo: Repository, run: Run, refs: seq<string>)
    requires Gate(repo, run) == Refused(AlreadyClaimed(refs))
    ensures run.version.Some? && Parses(run.version.value) && repo.refs.Answer? && refs != []
    ensures ClaimsOf(repo, OwnBranch(run), repo.refs.value).Claims?
    ensures refs == Claiming(ClaimsOf(repo, OwnBranch(run), repo.refs.value).claims, run.version.value)
  {
    if repo.refs.Answer? { ReadingRefusals(repo, OwnBranch(run), repo.refs.value); }
  }

  /** A refusal as already claimed names exactly the foreign open refs that declare the run's version. */
  lemma AlreadyClaimedExactly(repo: Repository, run: Run, refs: seq<string>, ref: string)
    requires Gate(repo, run) == Refused(AlreadyClaimed(refs))
    ensures refs != [] && run.version.Some? && repo.refs.Answer?
    ensures ref in refs
            <==> && ref in repo.refs.value && !NotForeign(repo, OwnBranch(run), ref)
                 && repo.ancestry(ref) == Answer(false) && repo.show(ref) == Declares(run.version.value)
  {
    GateClaimed(repo, run, refs);
    var version := run.version.value;
    ClaimingExactly(ClaimsOf(repo, OwnBranch(run), repo.refs.value).claims, version, ref);
    ClaimsAreExact(repo, OwnBranch(run), repo.refs.value, ref, version);
    EmptyIsNoVersion();
  }

  lemma EmptyIsNoVersion()
    ensures !Parses("")
  {
  }

  lemma GateSteps(repo: Repository, run: Run, version: string)
    ensures Gate(repo, run) == Passed(version)
            <==> && !run.pushToMain && !run.head.Unavailable? && run.head != Answer("main")
                 && repo.baseVersion.Answer? && run.version.Some?
                 && Decide(run.version.value, repo.baseVersion.value, run.title) == Pass(version)
                 && OpenClaims(repo, run).Claims? && Claiming(OpenClaims(repo, run).claims, version) == []
  {
  }

  lemma DecidesExactly(tree: string, base: Option<string>, title: Option<string>, version: string)
    ensures Decide(tree, base, title) == Pass(version)
            <==> && tree == version && (title.None? || title == Some(version))
                 && base.Some? && Compare(version, base.value).Some? && Compare(version, base.value).value > 0
  {
  }

  /** A ref the branch is open as: a local one, or a remote-tracking one that is no alias. */
  predicate OpenAs(repo: Repository, branch: string, ref: string) {
    && repo.refs.Answer? && ref in repo.refs.value && repo.ancestry(ref) != Answer(true)
    && (ref == LocalRef(branch) || (ref == RemoteRef(branch) && !(HeadIsAlias(repo) && ref == ORIGIN_HEAD)))
  }

  /** `branch` is open in the repository, declares `version` there, and a run on its tree passes the gate. */
  ghost predicate PassesAs(repo: Repository, branch: string, version: string) {
    && branch != "main"
    && (exists ref :: OpenAs(repo, branch, ref) && repo.show(ref) == Declares(version))
    && exists run ::
         OwnBranch(run) == Some(branch) && run.version == Some(version) && Gate(repo, run) == Passed(version)
  }

  lemma LocalIsForeign(repo: Repository, own: string, other: string)
    requires own != other && other != "main"
    ensures !NotForeign(repo, Some(own), LocalRef(other))
  {
    var ref := LocalRef(other);
    assert ref[5] == 'h' && ORIGIN_HEAD[5] == 'r' && RemoteRef(own)[5] == 'r' && RemoteRef("main")[5] == 'r';
    assert ref[11..] == other && LocalRef(own)[11..] == own && LocalRef("main")[11..] == "main";
  }

  lemma RemoteIsForeign(repo: Repository, own: string, other: string)
    requires own != other && other != "main" && !(HeadIsAlias(repo) && RemoteRef(other) == ORIGIN_HEAD)
    ensures !NotForeign(repo, Some(own), RemoteRef(other))
  {
    var ref := RemoteRef(other);
    assert ref[5] == 'r' && LocalRef(own)[5] == 'h' && LocalRef("main")[5] == 'h';
    assert ref[20..] == other && RemoteRef(own)[20..] == own && RemoteRef("main")[20..] == "main";
  }

  lemma GatePassed(repo: Repository, run: Run, version: string)
    requires Gate(repo, run) == Passed(version)
    ensures run.version == Some(version) && AboveBase(repo, version)
    ensures OpenClaims(repo, run).Claims? && Claiming(OpenClaims(repo, run).claims, version) == []
  {
  }

  predicate AboveBase(repo: Repository, version: string) {
    && repo.baseVersion.Answer? && repo.baseVersion.value.Some?
    && Compare(version, repo.baseVersion.value.value).Some? && Compare(version, repo.baseVersion.value.value).value > 0
  }

  lemma OtherIsClaimed(repo: Repository, run: Run, own: string, other: string, ref: string, version: string)
    requires OpenClaims(repo, run).Claims? && OwnBranch(run) == Some(own) && own != other && other != "main"
    requires OpenAs(repo, other, ref) && repo.show(ref) == Declares(version)
    ensures Claim(ref, version) in OpenClaims(repo, run).claims
  {
    if ref == LocalRef(other) { LocalIsForeign(repo, own, other); } else { RemoteIsForeign(repo, own, other); }
    NoneSkipped(repo, Some(own), repo.refs.value, ref);
  }

  lemma PassingIsAlone(repo: Repository, a: string, b: string, v: string, w: string)
    requires a != b && PassesAs(repo, a, v) && PassesAs(repo, b, w)
    ensures v != w
  {
    var run :| OwnBranch(run) == Some(a) && run.version == Some(v) && Gate(repo, run) == Passed(v);
    var ref :| OpenAs(repo, b, ref) && repo.show(ref) == Declares(w);
    GatePassed(repo, run, v);
    OtherIsClaimed(repo, run, a, b, ref, w);
    var claims := OpenClaims(repo, run).claims;
    var i :| 0 <= i < |claims| && claims[i] == Claim(ref, w);
  }

  lemma PassingIsAbove(repo: Repository, branch: string, version: string)
    requires PassesAs(repo, branch, version)
    ensures AboveBase(repo, version)
  {
    var run :| OwnBranch(run) == Some(branch) && run.version == Some(version) && Gate(repo, run) == Passed(version);
    GatePassed(repo, run, version);
  }

  /** The ladder: branches that are open, locally or as remote-tracking refs, and all pass on one state of
      the refs declare pairwise distinct versions, each strictly above the base. */
  lemma Ladder(repo: Repository, versions: map<string, string>)
    requires forall b | b in versions :: PassesAs(repo, b, versions[b])
    ensures forall a, b | a in versions && b in versions && a != b :: versions[a] != versions[b]
    ensures forall b | b in versions :: AboveBase(repo, versions[b])
  {
    forall a, b | a in versions && b in versions && a != b ensures versions[a] != versions[b] {
      PassingIsAlone(repo, a, b, versions[a], versions[b]);
    }
    forall b | b in versions ensures AboveBase(repo, versions[b]) { PassingIsAbove(repo, b, versions[b]); }
  }
}
