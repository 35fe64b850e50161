/** pkg/hearsay/claims.go: which claims conflict, and the patterns that resource URIs may be. */
module Conflicts {
  import opened Messages

  // ---------- Strings ----------

  predicate HasPrefix(s: string, prefix: string) { prefix <= s }

  predicate HasSuffix(s: string, suffix: string) { |suffix| <= |s| && s[|s| - |suffix|..] == suffix }

  function TrimSuffix(s: string, suffix: string): string {
    if HasSuffix(s, suffix) then s[..|s| - |suffix|] else s
  }

  const TREE := "/**"

  /** `path.Match` on patterns built from literals, `?` and `*`; neither wildcard crosses a slash. */
  predicate Glob(pattern: string, name: string)
    decreases |pattern| + |name|
  {
    if pattern == "" then name == ""
    else if pattern[0] == '*' then
      Glob(pattern[1..], name) || (name != "" && name[0] != '/' && Glob(pattern, name[1..]))
    else
      && name != ""
      && (if pattern[0] == '?' then name[0] != '/' else name[0] == pattern[0])
      && Glob(pattern[1..], name[1..])
  }

  // ---------- Resources and operations ----------

  predicate ResourceMatches(a: string, b: string) {
    if a == b then true
    else if HasSuffix(a, TREE) then HasPrefix(b, TrimSuffix(a, TREE) + "/")
    else if HasSuffix(b, TREE) then HasPrefix(a, TrimSuffix(b, TREE) + "/")
    else if '*' in a then Glob(a, b)
    else if '*' in b then Glob(b, a)
    else false
  }

  predicate ResourceMatchesPattern(pattern: string, resourceUri: string) {
    pattern == "" || pattern == "*" || resourceUri == "" || resourceUri == "*" || ResourceMatches(pattern, resourceUri)
  }

  /** The operation matrix: would `op` conflict with a claim holding the same resource for `held`? */
  predicate OperationsConflict(op: Operation, held: Operation) {
    match op
    case Write => held.Write? || held.Delete? || held.Rename? || held.Refactor?
    case Delete => held.Read? || held.Write? || held.Delete? || held.Rename? || held.Refactor?
    case Rename => true
    case Refactor => true
    case Read => held.Delete? || held.Rename?
    case OtherOperation(_) => false
  }

  predicate IsConflicting(resource: string, op: Operation, other: Claim) {
    ResourceMatches(resource, other.resourceUri) && OperationsConflict(op, other.operation)
  }

  /** `claim` must not be granted while `held` is active. */
  predicate Blocks(held: Claim, claim: Claim) {
    held.agentId != claim.agentId && IsConflicting(claim.resourceUri, claim.operation, held)
  }

  // ---------- The conflict report ----------

  datatype Conflict = Conflict(
    claimId: string, agentId: string, resource: string, operation: Operation, intent: string, since: Instant)

  datatype ConflictReport = ConflictReport(hasConflict: bool, conflicts: seq<Conflict>)

  function ConflictFor(a: Claim): Conflict {
    Conflict(a.claimId, a.agentId, a.resourceUri, a.operation, a.intent, a.createdAt)
  }

  function Report(claim: Claim, active: seq<Claim>): seq<Conflict> {
    if active == [] then []
    else Report(claim, Init(active)) + if Blocks(Last(active), claim) then [ConflictFor(Last(active))] else []
  }

  method CheckConflict(claim: Claim, active: seq<Claim>) returns (report: ConflictReport)
    ensures report == ConflictReport(Report(claim, active) != [], Report(claim, active))
    ensures report.hasConflict <==> exists a :: a in active && Blocks(a, claim)
  {
    var conflicts: seq<Conflict> := [];
    for i := 0 to |active|
      invariant conflicts == Report(claim, active[..i])
    {
      var a := active[i];
      assert Init(active[..i + 1]) == active[..i] && Last(active[..i + 1]) == a;
      if a.agentId == claim.agentId { continue; }
      if IsConflicting(claim.resourceUri, claim.operation, a) {
        conflicts := conflicts + [Conflict(a.claimId, a.agentId, a.resourceUri, a.operation, a.intent, a.createdAt)];
      }
    }
    assert active[..|active|] == active;
    ReportIsEmptyIff(claim, active);
    report := ConflictReport(|conflicts| > 0, conflicts);
  }

  lemma {:induction false} ReportIsEmptyIff(claim: Claim, active: seq<Claim>)
    ensures Report(claim, active) == [] <==> forall a :: a in active ==> !Blocks(a, claim)
  {
    if active != [] {
      ReportIsEmptyIff(claim, Init(active));
      assert active == Init(active) + [Last(active)];
    }
  }

  /** The claims a provider's `ActiveClaims` keeps for a pattern. */
  function Selected(claims: seq<Claim>, pattern: string): seq<Claim> {
    if claims == [] then []
    else
      Selected(Init(claims), pattern)
      + if ResourceMatchesPattern(pattern, Last(claims).resourceUri) then [Last(claims)] else []
  }

  /** Asking the provider only for the requested URI loses no conflict: the report is the same, entry for entry. */
  lemma {:induction false} FilteringKeepsReport(claim: Claim, active: seq<Claim>)
    ensures Report(claim, Selected(active, claim.resourceUri)) == Report(claim, active)
  {
    if active != [] {
      FilteringKeepsReport(claim, Init(active));
      var kept := Selected(Init(active), claim.resourceUri);
      assert kept + [] == kept;
      assert Init(kept + [Last(active)]) == kept && Last(kept + [Last(active)]) == Last(active);
    }
  }

  // ---------- Dry runs ----------

  /** The claim `Client.CheckConflict` pretends to make. */
  function DryRunClaim(resourceUri: string, op: Operation): Claim {
    Claim("", "_check_", resourceUri, op, "", 0, 0)
  }

  function ProposedBy(agentId: string, resourceUri: string, op: Operation): Claim {
    Claim("", agentId, resourceUri, op, "", 0, 0)
  }

  /**
   * Every agent would be granted the claim exactly when the dry run is clear and no claim held by
   * the agent called `_check_` is in the way: the dry run overlooks that agent's claims.
   */
  lemma DryRunIsExact(active: seq<Claim>, resourceUri: string, op: Operation)
    ensures (forall agentId :: Report(ProposedBy(agentId, resourceUri, op), active) == [])
            <==>
            && Report(DryRunClaim(resourceUri, op), active) == []
            && forall a :: a in active && a.agentId == "_check_" ==> !IsConflicting(resourceUri, op, a)
  {
    ReportIsEmptyIff(DryRunClaim(resourceUri, op), active);
    forall agentId
      ensures Report(ProposedBy(agentId, resourceUri, op), active) == []
              <==> forall a :: a in active ==> !Blocks(a, ProposedBy(agentId, resourceUri, op))
    {
      ReportIsEmptyIff(ProposedBy(agentId, resourceUri, op), active);
    }
    if forall agentId :: Report(ProposedBy(agentId, resourceUri, op), active) == [] {
      assert ProposedBy("_check_", resourceUri, op) == DryRunClaim(resourceUri, op);
      assert Report(ProposedBy("", resourceUri, op), active) == [];
      forall a | a in active && a.agentId == "_check_" ensures !IsConflicting(resourceUri, op, a) {
        assert !Blocks(a, ProposedBy("", resourceUri, op));
      }
    } else {
      var agentId :| Report(ProposedBy(agentId, resourceUri, op), active) != [];
      var a :| a in active && Blocks(a, ProposedBy(agentId, resourceUri, op));
      assert a.agentId != "_check_" ==> Blocks(a, DryRunClaim(resourceUri, op));
    }
  }

  /** A write claim of `_check_` that the dry run does not see and bob runs into. */
  lemma DryRunOverlooksCheck(held: Claim)
    requires held.agentId == "_check_" && held.resourceUri == "u" && held.operation == Write
    ensures Report(DryRunClaim("u", Write), [held]) == []
    ensures Report(ProposedBy("bob", "u", Write), [held]) == [ConflictFor(held)]
  {
    assert Init([held]) == [];
    assert "bob"[0] == 'b' && "_check_"[0] == '_';
  }

  // ---------- Symmetry ----------

  /** The operation pairs on which the matrix answers differently in the two directions. */
  predicate LopsidedOperations(a: Operation, b: Operation) {
    || (a.Refactor? && (b.Read? || b.OtherOperation?))
    || (a.Rename? && b.OtherOperation?)
  }

  lemma OperationSymmetry(a: Operation, b: Operation)
    ensures (OperationsConflict(a, b) <==> OperationsConflict(b, a))
            <==> !LopsidedOperations(a, b) && !LopsidedOperations(b, a)
  {
    match a { case Write => case Delete => case Rename => case Refactor => case Read => case OtherOperation(_) => }
  }

  predicate Below(pattern: string, uri: string) { HasPrefix(uri, TrimSuffix(pattern, TREE) + "/") }

  // ---------- Globs that match each other ----------

  predicate IsWild(c: char) { c == '*' || c == '?' }

  /** The length of the run of wildcards a pattern begins with. */
  function Gap(p: string): (n: nat)
    ensures n <= |p|
  {
    if p != "" && IsWild(p[0]) then 1 + Gap(p[1..]) else 0
  }

  /** How many of the first `n` characters are `?`. */
  function Singles(p: string, n: nat): nat
    requires n <= |p|
  {
    if n == 0 then 0 else (if p[0] == '?' then 1 else 0) + Singles(p[1..], n - 1)
  }

  /** The first run of wildcards of `p` takes up exactly that of `q`: room for each `?`, and a `*` for the rest. */
  predicate Absorbs(p: string, q: string) {
    var singles := Singles(p, Gap(p));
    singles <= Gap(q) && ('*' in p[..Gap(p)] || singles == Gap(q))
  }

  function AfterGap(p: string): string { p[Gap(p)..] }

  /** The same literals in the same order, and between them runs of wildcards that take up those of `q`. */
  predicate Aligned(p: string, q: string)
    decreases |p|, 1
  {
    Absorbs(p, q) && AlignedLiterals(AfterGap(p), AfterGap(q))
  }

  predicate AlignedLiterals(p: string, q: string)
    decreases |p|, 0
  {
    if p == "" then q == "" else q != "" && p[0] == q[0] && Aligned(p[1..], q[1..])
  }

  /** Two patterns that say the same up to the order and number of wildcards in each run. */
  predicate SameShape(a: string, b: string) { Aligned(a, b) && Aligned(b, a) }

  function Literals(p: string): nat {
    if p == "" then 0 else (if IsWild(p[0]) then 0 else 1) + Literals(p[1..])
  }

  /** `Glob` with wildcards that match nothing but wildcards. */
  predicate Fits(p: string, q: string)
    decreases |p| + |q|
  {
    if p == "" then q == ""
    else if p[0] == '*' then Fits(p[1..], q) || (q != "" && IsWild(q[0]) && Fits(p, q[1..]))
    else q != "" && (if p[0] == '?' then IsWild(q[0]) else q[0] == p[0]) && Fits(p[1..], q[1..])
  }

  /** Every literal of the pattern is matched by its like. */
  lemma {:induction false} GlobNeedsLiterals(p: string, q: string)
    requires Glob(p, q)
    ensures Literals(p) <= Literals(q)
    decreases |p| + |q|
  {
    if p != "" {
      if p[0] != '*' || Glob(p[1..], q) {
        GlobNeedsLiterals(p[1..], if p[0] == '*' then q else q[1..]);
      } else {
        GlobNeedsLiterals(p, q[1..]);
      }
    }
  }

  lemma {:induction false} FitsIsGlob(p: string, q: string)
    ensures Fits(p, q) <==> Glob(p, q) && Literals(p) == Literals(q)
    decreases |p| + |q|
  {
    if p != "" {
      if p[0] == '*' { FitsIsGlob(p[1..], q); }
      if q != "" {
        FitsIsGlob(p, q[1..]);
        FitsIsGlob(p[1..], q[1..]);
        if Glob(p[1..], q[1..]) { GlobNeedsLiterals(p[1..], q[1..]); }
        if Glob(p, q[1..]) { GlobNeedsLiterals(p, q[1..]); }
      }
    }
  }

  /** What a leading wildcard adds to the gap. */
  lemma GapFacts(p: string)
    requires p != "" && IsWild(p[0])
    ensures Gap(p) == Gap(p[1..]) + 1 && AfterGap(p) == AfterGap(p[1..])
    ensures Singles(p, Gap(p)) == Singles(p[1..], Gap(p[1..])) + if p[0] == '?' then 1 else 0
    ensures '*' in p[..Gap(p)] <==> p[0] == '*' || '*' in p[1..][..Gap(p[1..])]
  {
    assert p[..Gap(p)] == [p[0]] + p[1..][..Gap(p[1..])];
  }

  lemma AlignedStar(p: string, q: string)
    requires p != "" && p[0] == '*'
    ensures Aligned(p, q) <==> Aligned(p[1..], q) || (q != "" && IsWild(q[0]) && Aligned(p, q[1..]))
  {
    GapFacts(p);
    if q != "" && IsWild(q[0]) { GapFacts(q); }
  }

  lemma AlignedSingle(p: string, q: string)
    requires p != "" && p[0] == '?'
    ensures Aligned(p, q) <==> q != "" && IsWild(q[0]) && Aligned(p[1..], q[1..])
  {
    GapFacts(p);
    if q != "" && IsWild(q[0]) { GapFacts(q); }
  }

  lemma AlignedLiteral(p: string, q: string)
    requires p != "" && !IsWild(p[0])
    ensures Aligned(p, q) <==> q != "" && q[0] == p[0] && Aligned(p[1..], q[1..])
  {
    assert Gap(p) == 0 && AfterGap(p) == p && Singles(p, 0) == 0;
    assert q == "" || !IsWild(q[0]) ==> Gap(q) == 0 && AfterGap(q) == q;
  }

  lemma {:induction false} FitsIsAligned(p: string, q: string)
    ensures Fits(p, q) <==> Aligned(p, q)
    decreases |p| + |q|
  {
    if p != "" && p[0] == '*' {
      AlignedStar(p, q);
      FitsIsAligned(p[1..], q);
      if q != "" { FitsIsAligned(p, q[1..]); }
    } else if p != "" {
      if p[0] == '?' { AlignedSingle(p, q); } else { AlignedLiteral(p, q); }
      if q != "" { FitsIsAligned(p[1..], q[1..]); }
    } else {
      assert q != "" && IsWild(q[0]) ==> Gap(q) > 0;
      assert q != "" && !IsWild(q[0]) ==> AfterGap(q) == q;
    }
  }

  /** Two patterns match each other exactly when they have the same shape. */
  lemma GlobsMatchMutually(a: string, b: string)
    ensures Glob(a, b) && Glob(b, a) <==> SameShape(a, b)
  {
    FitsIsGlob(a, b);
    FitsIsGlob(b, a);
    FitsIsAligned(a, b);
    FitsIsAligned(b, a);
    if Glob(a, b) { GlobNeedsLiterals(a, b); }
    if Glob(b, a) { GlobNeedsLiterals(b, a); }
  }

  /** A glob that covers another's text without being covered by it. */
  lemma GlobsCanBeLopsided()
    ensures ResourceMatches("*", "a*") && !ResourceMatches("a*", "*") && !SameShape("*", "a*")
  {
    GlobsMatchMutually("*", "a*");
  }

  // ---------- Symmetry of resources ----------

  /** The resource pairs on which `ResourceMatches` answers differently in the two directions. */
  predicate LopsidedResources(a: string, b: string) {
    && a != b
    && if HasSuffix(a, TREE) && HasSuffix(b, TREE) then Below(a, b) || Below(b, a)
       else !HasSuffix(a, TREE) && !HasSuffix(b, TREE) && '*' in a && '*' in b
            && (Glob(a, b) || Glob(b, a)) && !SameShape(a, b)
  }

  lemma NestedTreeIsLonger(a: string, b: string)
    requires a != b && HasSuffix(a, TREE) && HasSuffix(b, TREE) && Below(a, b)
    ensures |a| < |b|
  {
    var p, q := TrimSuffix(a, TREE), TrimSuffix(b, TREE);
    assert a == p + TREE && b == q + TREE;
    assert b[|q| + 1] == TREE[1] && b[|q| + 2] == TREE[2] && b[|p|] == '/';
    assert |p| <= |q| && p == b[..|p|];
  }

  /** Two different tree patterns never lie below each other. */
  lemma TreesNestOneWay(a: string, b: string)
    requires a != b && HasSuffix(a, TREE) && HasSuffix(b, TREE)
    ensures !(Below(a, b) && Below(b, a))
  {
    if Below(a, b) { NestedTreeIsLonger(a, b); }
    if Below(b, a) { NestedTreeIsLonger(b, a); }
  }

  lemma ResourceSymmetry(a: string, b: string)
    ensures (ResourceMatches(a, b) <==> ResourceMatches(b, a)) <==> !LopsidedResources(a, b)
  {
    if a != b && HasSuffix(a, TREE) && HasSuffix(b, TREE) {
      TreesNestOneWay(a, b);
    }
    GlobsMatchMutually(a, b);
  }

  // ---------- What patterns cover ----------

  lemma TreesHaveStars(s: string)
    ensures HasSuffix(s, TREE) ==> '*' in s
  {
    assert HasSuffix(s, TREE) ==> s[|s| - 1] == TREE[2];
  }

  /** A tree pattern, on either side, covers exactly what lies below its root; the root itself is not covered. */
  lemma TreeCovers(root: string, uri: string)
    ensures ResourceMatches(root + TREE, uri) <==> exists rest :: uri == root + "/" + rest
    ensures '*' !in uri ==> (ResourceMatches(uri, root + TREE) <==> exists rest :: uri == root + "/" + rest)
  {
    var pattern := root + TREE;
    assert HasSuffix(pattern, TREE) && TrimSuffix(pattern, TREE) == root;
    if uri == pattern {
      assert uri == root + "/" + "**";
    } else if HasPrefix(uri, root + "/") {
      assert uri == root + "/" + uri[|root| + 1..];
    }
    TreesHaveStars(uri);
  }

  predicate Literal(s: string) { '*' !in s && '?' !in s }

  lemma {:induction false} GlobLiteral(pattern: string, name: string)
    requires Literal(pattern)
    ensures Glob(pattern, name) <==> pattern == name
  {
    if pattern != "" && name != "" {
      GlobLiteral(pattern[1..], name[1..]);
      assert pattern == [pattern[0]] + pattern[1..] && name == [name[0]] + name[1..];
    }
  }

  lemma StarStep(post: string, name: string)
    requires Literal(post)
    ensures Glob("*" + post, name) <==> post == name || (name != "" && name[0] != '/' && Glob("*" + post, name[1..]))
  {
    assert ("*" + post)[1..] == post;
    GlobLiteral(post, name);
  }

  lemma {:induction false} GlobTailSplits(post: string, name: string) returns (mid: string)
    requires Literal(post) && Glob("*" + post, name)
    ensures '/' !in mid && name == mid + post
    decreases |name|
  {
    StarStep(post, name);
    if post == name {
      mid := "";
    } else {
      var rest := GlobTailSplits(post, name[1..]);
      mid := [name[0]] + rest;
      assert name == [name[0]] + name[1..];
    }
  }

  lemma {:induction false} GlobTailJoins(post: string, mid: string)
    requires Literal(post) && '/' !in mid
    ensures Glob("*" + post, mid + post)
    decreases |mid|
  {
    StarStep(post, mid + post);
    if mid == "" {
      assert mid + post == post;
    } else {
      assert (mid + post)[1..] == mid[1..] + post && mid[0] in mid;
      GlobTailJoins(post, mid[1..]);
    }
  }

  lemma GlobTail(post: string, name: string)
    requires Literal(post)
    ensures Glob("*" + post, name) <==> exists mid: string :: '/' !in mid && name == mid + post
  {
    if Glob("*" + post, name) { var mid := GlobTailSplits(post, name); }
    if exists mid: string :: '/' !in mid && name == mid + post {
      var mid: string :| '/' !in mid && name == mid + post;
      GlobTailJoins(post, mid);
    }
  }

  /** One `*` between literals stands for any run of characters without a slash. */
  lemma {:induction false} GlobStar(pre: string, post: string, name: string)
    requires Literal(pre) && Literal(post)
    ensures Glob(pre + "*" + post, name) <==> exists mid: string :: '/' !in mid && name == pre + mid + post
  {
    if pre == "" {
      assert pre + "*" + post == "*" + post;
      GlobTail(post, name);
      assert forall mid: string :: pre + mid + post == mid + post;
    } else {
      var pattern := pre + "*" + post;
      assert pattern[0] == pre[0] && pattern[1..] == pre[1..] + "*" + post;
      assert forall mid: string :: pre + mid + post == [pre[0]] + (pre[1..] + mid + post);
      if name != "" {
        GlobStar(pre[1..], post, name[1..]);
        assert name == [name[0]] + name[1..];
        if Glob(pattern, name) {
          var mid: string :| '/' !in mid && name[1..] == pre[1..] + mid + post;
          assert name == pre + mid + post;
        }
        if exists mid: string :: '/' !in mid && name == pre + mid + post {
          var mid: string :| '/' !in mid && name == pre + mid + post;
          assert name[1..] == pre[1..] + mid + post;
        }
      }
    }
  }

  lemma {:induction false} StarTakes(rest: string, name: string) returns (n: nat)
    requires Glob("*" + rest, name)
    ensures n <= |name| && '/' !in name[..n] && Glob(rest, name[n..])
    decreases |name|
  {
    assert ("*" + rest)[1..] == rest;
    if Glob(rest, name) {
      n := 0;
      assert name[0..] == name;
    } else {
      var k := StarTakes(rest, name[1..]);
      n := k + 1;
      assert name[..n] == [name[0]] + name[1..][..k] && name[n..] == name[1..][k..];
    }
  }

  lemma {:induction false} StarMayTake(rest: string, name: string, n: nat)
    requires n <= |name| && '/' !in name[..n] && Glob(rest, name[n..])
    ensures Glob("*" + rest, name)
    decreases n
  {
    assert ("*" + rest)[1..] == rest;
    if n == 0 {
      assert name[0..] == name;
    } else {
      assert name[..n] == [name[0]] + name[1..][..n - 1] && name[n..] == name[1..][n - 1..] && name[0] in name[..n];
      StarMayTake(rest, name[1..], n - 1);
    }
  }

  /** A star takes up any run of characters without a slash, and the rest of the pattern what is left, whatever the rest is. */
  lemma StarThenRest(rest: string, name: string)
    ensures Glob("*" + rest, name) <==> exists n :: 0 <= n <= |name| && '/' !in name[..n] && Glob(rest, name[n..])
  {
    if Glob("*" + rest, name) { var n := StarTakes(rest, name); }
    if exists n :: 0 <= n <= |name| && '/' !in name[..n] && Glob(rest, name[n..]) {
      var n :| 0 <= n <= |name| && '/' !in name[..n] && Glob(rest, name[n..]);
      StarMayTake(rest, name, n);
    }
  }

  /** A question mark stands for one character that is not a slash, after any literal beginning. */
  lemma {:induction false} SingleThenRest(pre: string, rest: string, name: string)
    requires Literal(pre)
    ensures Glob(pre + "?" + rest, name) <==>
            pre <= name && |pre| < |name| && name[|pre|] != '/' && Glob(rest, name[|pre| + 1..])
  {
    var pattern := pre + "?" + rest;
    if pre == "" {
      assert pattern == "?" + rest && pattern[1..] == rest;
    } else {
      assert pattern[0] == pre[0] && pattern[1..] == pre[1..] + "?" + rest;
      if name != "" {
        SingleThenRest(pre[1..], rest, name[1..]);
        assert pre <= name <==> pre[0] == name[0] && pre[1..] <= name[1..];
      }
    }
  }

  /** Two URIs without a star match only when they are equal. */
  lemma ConcreteUrisMatchThemselves(a: string, b: string)
    requires '*' !in a && '*' !in b
    ensures ResourceMatches(a, b) <==> a == b
  {
    TreesHaveStars(a);
    TreesHaveStars(b);
  }

  /** A pattern with one star, on either side, matches exactly the concrete URIs that have a run without a slash in its place. */
  lemma PlainGlobCovers(pre: string, post: string, uri: string)
    requires Literal(pre) && Literal(post) && '*' !in uri
    ensures ResourceMatches(pre + "*" + post, uri) <==> exists mid: string :: '/' !in mid && uri == pre + mid + post
    ensures ResourceMatches(uri, pre + "*" + post) <==> exists mid: string :: '/' !in mid && uri == pre + mid + post
  {
    var pattern := pre + "*" + post;
    GlobStar(pre, post, uri);
    TreesHaveStars(uri);
    OneStarIsNoTree(pre, post);
    assert pattern[|pre|] == '*';
  }

  lemma OneStarIsNoTree(pre: string, post: string)
    requires Literal(pre) && Literal(post)
    ensures !HasSuffix(pre + "*" + post, TREE)
  {
    var p := pre + "*" + post;
    assert post != "" ==> p[|p| - 1] == post[|post| - 1] && post[|post| - 1] in post;
    assert post == "" && pre != "" ==> p[|p| - 2] == pre[|pre| - 1] && pre[|pre| - 1] in pre;
    assert |TREE| == 3 && TREE[1] == '*' && TREE[2] == '*';
  }

  // ---------- What a pattern leaves out ----------

  /** The claims a provider returns for a pattern: all of them for `""` and `*`, else those on no URI, on `*`, or on a URI that matches. */
  lemma {:induction false} SelectedAre(claims: seq<Claim>, pattern: string)
    ensures forall c :: c in Selected(claims, pattern) <==>
              c in claims && (pattern in ["", "*"] || c.resourceUri in ["", "*"] || ResourceMatches(pattern, c.resourceUri))
  {
    if claims != [] {
      SelectedAre(Init(claims), pattern);
      assert claims == Init(claims) + [Last(claims)];
    }
  }

  /** In the order they were in. */
  lemma {:induction false} SelectedConcat(xs: seq<Claim>, ys: seq<Claim>, pattern: string)
    ensures Selected(xs + ys, pattern) == Selected(xs, pattern) + Selected(ys, pattern)
  {
    if ys == [] {
      assert xs + ys == xs;
    } else {
      SelectedConcat(xs, Init(ys), pattern);
      assert Init(xs + ys) == xs + Init(ys) && Last(xs + ys) == Last(ys);
    }
  }
}
