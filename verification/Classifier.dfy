/** Which project a conversation belongs to: validated rules, one search, and priorities. */
module Classifier {
  import opened Wrappers
  import opened Conversations
  import opened Aliases

  datatype ProjectRule = ProjectRule(project: string, aliases: seq<string>, priority: int)

  datatype RulesError =
    | Reserved(project: string)
    | NoAlias(project: string)
    | Blank(project: string, alias: string)
    | DeclaredTwice(project: string)
    | ClaimedTwice(alias: string, owner: string, project: string)

  const UNKNOWN := "unknown"

  // ---------------------------------------------------------------------------------------------
  // What a usable rule set is
  // ---------------------------------------------------------------------------------------------

  predicate RuleOk(abc: Alphabet, rule: ProjectRule) {
    && rule.project != UNKNOWN && rule.aliases != []
    && forall a | 0 <= a < |rule.aliases| :: HasAlphanumeric(abc, rule.aliases[a])
  }

  ghost predicate Claims(abc: Alphabet, rule: ProjectRule, key: string) {
    exists a :: 0 <= a < |rule.aliases| && AliasKey(abc, rule.aliases[a]) == key
  }

  ghost predicate ProjectsDiffer(rules: seq<ProjectRule>) {
    forall i, j | 0 <= i < j < |rules| :: rules[i].project != rules[j].project
  }

  /** No key identifies two projects. */
  ghost predicate ClaimsAgree(abc: Alphabet, rules: seq<ProjectRule>) {
    forall i, j, key | 0 <= i < |rules| && 0 <= j < |rules| && Claims(abc, rules[i], key) && Claims(abc, rules[j], key) ::
      rules[i].project == rules[j].project
  }

  ghost predicate RulesOk(abc: Alphabet, rules: seq<ProjectRule>) {
    && (forall i | 0 <= i < |rules| :: RuleOk(abc, rules[i]))
    && ProjectsDiffer(rules) && ClaimsAgree(abc, rules)
  }

  /** The table of owners: later declarations overwrite earlier ones. */
  function ClaimedBy(abc: Alphabet, aliases: seq<string>, project: string, owners: map<string, string>): map<string, string> {
    if aliases == [] then owners
    else ClaimedBy(abc, aliases[..|aliases| - 1], project, owners)[AliasKey(abc, aliases[|aliases| - 1]) := project]
  }

  function ProjectOf(abc: Alphabet, rules: seq<ProjectRule>): map<string, string> {
    if rules == [] then map[]
    else
      var last := rules[|rules| - 1];
      ClaimedBy(abc, last.aliases, last.project, ProjectOf(abc, rules[..|rules| - 1]))
  }

  lemma {:induction false} ClaimedByClaims(abc: Alphabet, aliases: seq<string>, project: string, owners: map<string, string>, key: string)
    ensures var rule := ProjectRule(project, aliases, 0); var now := ClaimedBy(abc, aliases, project, owners);
      if Claims(abc, rule, key) then key in now && now[key] == project
      else (key in now <==> key in owners) && (key in now ==> now[key] == owners[key])
  {
    if aliases != [] {
      var n := |aliases| - 1;
      var rule, before := ProjectRule(project, aliases, 0), ProjectRule(project, aliases[..n], 0);
      assert forall a | 0 <= a < n :: aliases[..n][a] == aliases[a];
      ClaimedByClaims(abc, aliases[..n], project, owners, key);
      if Claims(abc, before, key) {
        var a :| 0 <= a < n && AliasKey(abc, aliases[..n][a]) == key;
        assert AliasKey(abc, aliases[a]) == key && Claims(abc, rule, key);
      } else if Claims(abc, rule, key) {
        var a :| 0 <= a < |aliases| && AliasKey(abc, aliases[a]) == key;
        assert a == n;
      } else {
        assert AliasKey(abc, aliases[n]) != key;
      }
    }
  }

  lemma {:induction false} ClaimsIgnorePriority(abc: Alphabet, rule: ProjectRule, key: string)
    ensures Claims(abc, rule, key) <==> Claims(abc, ProjectRule(rule.project, rule.aliases, 0), key)
  {
    if Claims(abc, rule, key) {
      var a :| 0 <= a < |rule.aliases| && AliasKey(abc, rule.aliases[a]) == key;
      assert AliasKey(abc, ProjectRule(rule.project, rule.aliases, 0).aliases[a]) == key;
    }
  }

  ghost predicate Owned(abc: Alphabet, rules: seq<ProjectRule>, key: string, project: string) {
    exists i :: 0 <= i < |rules| && rules[i].project == project && Claims(abc, rules[i], key)
  }

  /** What the table says is what some rule declares; where no two rules disagree it says all that
      any rule declares. */
  lemma {:induction false} ProjectOfOwns(abc: Alphabet, rules: seq<ProjectRule>, key: string)
    ensures var owners := ProjectOf(abc, rules);
      && (key in owners ==> Owned(abc, rules, key, owners[key]))
      && (forall i | 0 <= i < |rules| && Claims(abc, rules[i], key) :: key in owners)
  {
    if rules != [] {
      var n := |rules| - 1;
      var last, before := rules[n], rules[..n];
      ProjectOfOwns(abc, before, key);
      ClaimedByClaims(abc, last.aliases, last.project, ProjectOf(abc, before), key);
      ClaimsIgnorePriority(abc, last, key);
      if key in ProjectOf(abc, rules) {
        if Claims(abc, last, key) {
          assert Owned(abc, rules, key, last.project);
        } else {
          var i :| 0 <= i < n && before[i].project == ProjectOf(abc, before)[key] && Claims(abc, before[i], key);
          assert rules[i] == before[i];
        }
      }
      forall i | 0 <= i < |rules| && Claims(abc, rules[i], key) ensures key in ProjectOf(abc, rules) {
        assert i < n ==> rules[i] == before[i];
      }
    }
  }

  lemma {:induction false} OwnerIsUnique(abc: Alphabet, rules: seq<ProjectRule>, key: string, project: string)
    requires ClaimsAgree(abc, rules)
    ensures Owned(abc, rules, key, project) <==> key in ProjectOf(abc, rules) && ProjectOf(abc, rules)[key] == project
  {
    ProjectOfOwns(abc, rules, key);
    if Owned(abc, rules, key, project) {
      var i :| 0 <= i < |rules| && rules[i].project == project && Claims(abc, rules[i], key);
      var j :| 0 <= j < |rules| && rules[j].project == ProjectOf(abc, rules)[key] && Claims(abc, rules[j], key);
    }
  }

  // ---------------------------------------------------------------------------------------------
  // Validation
  // ---------------------------------------------------------------------------------------------

  /** A rule is refused exactly when it could not identify anything. */
  method CheckRule(abc: Alphabet, rule: ProjectRule) returns (refusal: Option<RulesError>)
    ensures refusal.None? <==> RuleOk(abc, rule)
    ensures refusal.Some? && refusal.value.Blank? ==>
      refusal.value.alias in rule.aliases && !HasAlphanumeric(abc, refusal.value.alias)
  {
    if rule.project == UNKNOWN {
      return Some(Reserved(rule.project));
    }
    if rule.aliases == [] {
      return Some(NoAlias(rule.project));
    }
    for a := 0 to |rule.aliases|
      invariant forall b | 0 <= b < a :: HasAlphanumeric(abc, rule.aliases[b])
    {
      if !HasAlphanumeric(abc, rule.aliases[a]) {
        return Some(Blank(rule.project, rule.aliases[a]));
      }
    }
    return None;
  }

  /** Everything claimed so far is either new or already the rule's own. */
  ghost predicate Free(abc: Alphabet, aliases: seq<string>, project: string, owners: map<string, string>) {
    forall a | 0 <= a < |aliases| ::
      var key := AliasKey(abc, aliases[a]); key in owners ==> owners[key] == project
  }

  lemma {:induction false} OneMoreRule(abc: Alphabet, rules: seq<ProjectRule>, i: nat)
    requires i < |rules| && ClaimsAgree(abc, rules[..i])
    requires Free(abc, rules[i].aliases, rules[i].project, ProjectOf(abc, rules[..i]))
    ensures ClaimsAgree(abc, rules[..i + 1])
  {
    var before, rule, after := rules[..i], rules[i], rules[..i + 1];
    forall j, key | 0 <= j < i && Claims(abc, before[j], key) && Claims(abc, rule, key)
      ensures before[j].project == rule.project
    {
      assert Owned(abc, before, key, before[j].project);
      OwnerIsUnique(abc, before, key, before[j].project);
    }
    assert forall j | 0 <= j < i :: after[j] == before[j];
    assert after[i] == rule;
  }

  lemma {:induction false} Conflict(abc: Alphabet, rules: seq<ProjectRule>, i: nat, a: nat)
    requires i < |rules| && a < |rules[i].aliases|
    requires var key := AliasKey(abc, rules[i].aliases[a]);
      var owners := ProjectOf(abc, rules[..i]); key in owners && owners[key] != rules[i].project
    ensures var key := AliasKey(abc, rules[i].aliases[a]);
      Owned(abc, rules, key, rules[i].project) && Owned(abc, rules, key, ProjectOf(abc, rules[..i])[key])
  {
    var key := AliasKey(abc, rules[i].aliases[a]);
    assert Claims(abc, rules[i], key);
    ProjectOfOwns(abc, rules[..i], key);
    var j :| 0 <= j < i && rules[..i][j].project == ProjectOf(abc, rules[..i])[key] && Claims(abc, rules[..i][j], key);
    assert rules[j] == rules[..i][j];
  }

  /** Looking in the growing table refuses an alias just when the table before the rule does. */
  lemma {:induction false} OneMoreAlias(abc: Alphabet, rule: ProjectRule, a: nat, claimedBy: map<string, string>)
    requires a < |rule.aliases| && Free(abc, rule.aliases[..a], rule.project, claimedBy)
    ensures var key := AliasKey(abc, rule.aliases[a]); var owners := ClaimedBy(abc, rule.aliases[..a], rule.project, claimedBy);
      var blocked := key in claimedBy && claimedBy[key] != rule.project;
      && (key in owners && owners[key] != rule.project <==> blocked)
      && (blocked ==> owners[key] == claimedBy[key] && !Free(abc, rule.aliases, rule.project, claimedBy))
      && (!blocked ==> Free(abc, rule.aliases[..a + 1], rule.project, claimedBy))
      && ClaimedBy(abc, rule.aliases[..a + 1], rule.project, claimedBy) == owners[key := rule.project]
  {
    ClaimedByClaims(abc, rule.aliases[..a], rule.project, claimedBy, AliasKey(abc, rule.aliases[a]));
    assert rule.aliases[..a + 1][..a] == rule.aliases[..a];
  }

  /** One rule's aliases, claimed one by one. */
  method ClaimAliases(abc: Alphabet, rule: ProjectRule, claimedBy: map<string, string>)
    returns (refused: Option<nat>, owners: map<string, string>)
    ensures refused.None? <==> Free(abc, rule.aliases, rule.project, claimedBy)
    ensures refused.None? ==> owners == ClaimedBy(abc, rule.aliases, rule.project, claimedBy)
    ensures refused.Some? ==> refused.value < |rule.aliases| && var key := AliasKey(abc, rule.aliases[refused.value]);
      key in claimedBy && claimedBy[key] != rule.project
  {
    owners := claimedBy;
    assert rule.aliases[..0] == [];
    for a := 0 to |rule.aliases|
      invariant owners == ClaimedBy(abc, rule.aliases[..a], rule.project, claimedBy)
      invariant Free(abc, rule.aliases[..a], rule.project, claimedBy)
    {
      var folded := AliasKey(abc, rule.aliases[a]);
      OneMoreAlias(abc, rule, a, claimedBy);
      if folded in owners && owners[folded] != rule.project {
        return Some(a), owners;
      }
      owners := owners[folded := rule.project];
    }
    assert rule.aliases[..|rule.aliases|] == rule.aliases;
    return None, owners;
  }

  function ProjectsUpTo(rules: seq<ProjectRule>, n: nat): set<string>
    requires n <= |rules|
  {
    set j | 0 <= j < n :: rules[j].project
  }

  lemma {:induction false} OneMoreProject(rules: seq<ProjectRule>, i: nat)
    requires i < |rules| && ProjectsDiffer(rules[..i])
    ensures ProjectsUpTo(rules, i + 1) == ProjectsUpTo(rules, i) + {rules[i].project}
    ensures if rules[i].project in ProjectsUpTo(rules, i) then !ProjectsDiffer(rules) else ProjectsDiffer(rules[..i + 1])
  {
    if rules[i].project in ProjectsUpTo(rules, i) {
      var j :| 0 <= j < i && rules[j].project == rules[i].project;
    } else {
      forall j, k | 0 <= j < k <= i ensures rules[j].project != rules[k].project {
        if k < i {
          assert rules[..i][j] == rules[j] && rules[..i][k] == rules[k];
        } else {
          assert rules[j].project in ProjectsUpTo(rules, i);
        }
      }
    }
  }

  /** A rule set is refused exactly when a project is declared twice or a key names two projects. */
  method CheckRules(abc: Alphabet, rules: seq<ProjectRule>) returns (refusal: Option<RulesError>)
    ensures refusal.None? <==> ProjectsDiffer(rules) && ClaimsAgree(abc, rules)
    ensures refusal.Some? && refusal.value.ClaimedTwice? ==>
      var ClaimedTwice(alias, owner, project) := refusal.value;
      && owner != project
      && Owned(abc, rules, AliasKey(abc, alias), owner) && Owned(abc, rules, AliasKey(abc, alias), project)
  {
    var seenProjects, claimedBy := {}, map[];
    assert rules[..0] == [];
    for i := 0 to |rules|
      invariant seenProjects == ProjectsUpTo(rules, i) && ProjectsDiffer(rules[..i])
      invariant claimedBy == ProjectOf(abc, rules[..i])
      invariant ClaimsAgree(abc, rules[..i])
    {
      var rule := rules[i];
      OneMoreProject(rules, i);
      if rule.project in seenProjects {
        return Some(DeclaredTwice(rule.project));
      }
      seenProjects := seenProjects + {rule.project};
      var refused, owners := ClaimAliases(abc, rule, claimedBy);
      if refused.Some? {
        var alias := rule.aliases[refused.value];
        Conflict(abc, rules, i, refused.value);
        return Some(ClaimedTwice(alias, claimedBy[AliasKey(abc, alias)], rule.project));
      }
      OneMoreRule(abc, rules, i);
      assert rules[..i + 1][..i] == rules[..i];
      claimedBy := owners;
    }
    assert rules[..|rules|] == rules;
    return None;
  }

  // ---------------------------------------------------------------------------------------------
  // The matcher
  // ---------------------------------------------------------------------------------------------

  ghost function KeysOf(abc: Alphabet, rules: seq<ProjectRule>): set<string> {
    set i, a | 0 <= i < |rules| && 0 <= a < |rules[i].aliases| :: AliasKey(abc, rules[i].aliases[a])
  }

  lemma {:induction false} KeysAreOwned(abc: Alphabet, rules: seq<ProjectRule>)
    ensures ProjectOf(abc, rules).Keys == KeysOf(abc, rules)
  {
    forall key ensures key in ProjectOf(abc, rules) <==> key in KeysOf(abc, rules) {
      ProjectOfOwns(abc, rules, key);
      if key in KeysOf(abc, rules) {
        var i, a :| 0 <= i < |rules| && 0 <= a < |rules[i].aliases| && AliasKey(abc, rules[i].aliases[a]) == key;
        assert Claims(abc, rules[i], key);
      }
    }
  }

  lemma {:induction false} KeysAreKeys(abc: Alphabet, rules: seq<ProjectRule>, key: string)
    requires Regular(abc) && RulesOk(abc, rules) && key in KeysOf(abc, rules)
    ensures IsKey(abc, key)
    ensures AliasesNulFree(rules) ==> NUL !in key
  {
    var i, a :| 0 <= i < |rules| && 0 <= a < |rules[i].aliases| && AliasKey(abc, rules[i].aliases[a]) == key;
    assert RuleOk(abc, rules[i]);
    AliasHasKey(abc, rules[i].aliases[a]);
  }

  predicate AliasesNulFree(rules: seq<ProjectRule>) {
    forall i, a | 0 <= i < |rules| && 0 <= a < |rules[i].aliases| :: NUL !in rules[i].aliases[a]
  }

  function InsertKey(ordered: seq<string>, key: string): seq<string> {
    if ordered == [] || |key| >= |ordered[0]| then [key] + ordered else [ordered[0]] + InsertKey(ordered[1..], key)
  }

  lemma {:induction false} InsertKeyKeepsOrder(ordered: seq<string>, key: string)
    requires LongestFirst(ordered)
    ensures LongestFirst(InsertKey(ordered, key))
    ensures forall k :: k in InsertKey(ordered, key) <==> k == key || k in ordered
  {
    if ordered != [] && |key| < |ordered[0]| {
      var rest := InsertKey(ordered[1..], key);
      InsertKeyKeepsOrder(ordered[1..], key);
      assert ordered == [ordered[0]] + ordered[1..];
      forall i | 0 <= i < |rest| ensures |ordered[0]| >= |rest[i]| {
        assert rest[i] in rest;
        if rest[i] != key {
          var j :| 0 <= j < |ordered[1..]| && ordered[1..][j] == rest[i];
          assert rest[i] == ordered[j + 1];
        }
      }
    }
  }

  method SortedKeys(keys: set<string>) returns (ordered: seq<string>)
    ensures Lists(ordered, keys)
  {
    var rest := keys;
    ordered := [];
    while rest != {}
      invariant rest <= keys && Lists(ordered, keys - rest)
      decreases |rest|
    {
      var key :| key in rest;
      InsertKeyKeepsOrder(ordered, key);
      ordered := InsertKey(ordered, key);
      rest := rest - {key};
    }
  }

  /** The search built once from a rule set. */
  class AliasMatcher {
    const abc: Alphabet
    const projectOf: map<string, string>
    const ordered: seq<string>

    ghost predicate Serves(rules: seq<ProjectRule>) {
      && Regular(abc) && projectOf == ProjectOf(abc, rules) && projectOf.Keys == KeysOf(abc, rules)
      && Lists(ordered, projectOf.Keys) && Keys(abc, ordered)
      && (AliasesNulFree(rules) ==> NulFree(ordered))
    }

    constructor (abc: Alphabet, rules: seq<ProjectRule>)
      requires Regular(abc) && RulesOk(abc, rules)
      ensures this.abc == abc && Serves(rules)
    {
      var owners := ProjectOf(abc, rules);
      var sorted := SortedKeys(owners.Keys);
      KeysAreOwned(abc, rules);
      forall i | 0 <= i < |sorted|
        ensures sorted[i] != [] && IsKey(abc, sorted[i])
        ensures AliasesNulFree(rules) ==> NUL !in sorted[i]
      {
        assert sorted[i] in sorted;
        KeysAreKeys(abc, rules, sorted[i]);
      }
      this.abc := abc;
      projectOf := owners;
      ordered := sorted;
    }

    /** The projects of the leftmost longest matches; every match has an owner to look up. */
    function ProjectsNamed(ghost rules: seq<ProjectRule>, text: string): (named: set<string>)
      requires Serves(rules)
      ensures named == Owners(projectOf, KeysNamed(abc, projectOf.Keys, Fold(abc, text), 0))
    {
      LookupsSucceed(abc, ordered, projectOf, text);
      if ordered == [] then {}
      else
        var found := Matches(abc, ordered, Fold(abc, text), 0);
        set m | 0 <= m < |found| :: projectOf[AliasKey(abc, found[m])]
    }
  }

  function Owners(projectOf: map<string, string>, keys: set<string>): set<string> {
    set key | key in keys && key in projectOf :: projectOf[key]
  }

  lemma {:induction false} LookupsSucceed(abc: Alphabet, ordered: seq<string>, projectOf: map<string, string>, text: string)
    requires Regular(abc) && Lists(ordered, projectOf.Keys) && Keys(abc, ordered)
    ensures var found := Matches(abc, ordered, Fold(abc, text), 0);
      && (forall m | 0 <= m < |found| :: AliasKey(abc, found[m]) in projectOf)
      && (set m | 0 <= m < |found| :: projectOf[AliasKey(abc, found[m])])
        == Owners(projectOf, KeysNamed(abc, projectOf.Keys, Fold(abc, text), 0))
    ensures ordered == [] ==> Owners(projectOf, KeysNamed(abc, projectOf.Keys, Fold(abc, text), 0)) == {}
  {
    var folded := Fold(abc, text);
    FoldIsFolded(abc, text);
    MatchesHaveTheirKeys(abc, ordered, folded, 0);
    KeysMatchedAreNamed(abc, ordered, projectOf.Keys, folded, 0);
    var found := Matches(abc, ordered, folded, 0);
    var looked, owners := set m | 0 <= m < |found| :: projectOf[AliasKey(abc, found[m])],
      Owners(projectOf, KeysNamed(abc, projectOf.Keys, folded, 0));
    assert looked == owners by {
      forall p ensures p in looked <==> p in owners {
        if p in owners {
          var key :| key in KeysNamed(abc, projectOf.Keys, folded, 0) && projectOf[key] == p;
          var m :| 0 <= m < |found| && AliasKey(abc, found[m]) == key;
        }
      }
    }
    if ordered == [] {
      assert forall key :: key !in projectOf;
    }
  }

  // ---------------------------------------------------------------------------------------------
  // The classifier
  // ---------------------------------------------------------------------------------------------

  /** The keys each field names alone. */
  ghost function KeysInFields(abc: Alphabet, keys: set<string>, fields: seq<string>): set<string> {
    if fields == [] then {}
    else KeysNamed(abc, keys, Fold(abc, fields[0]), 0) + KeysInFields(abc, keys, fields[1..])
  }

  ghost predicate NamedIn(abc: Alphabet, rules: seq<ProjectRule>, fields: seq<string>, i: nat)
    requires i < |rules|
  {
    exists key :: key in KeysInFields(abc, KeysOf(abc, rules), fields) && Claims(abc, rules[i], key)
  }

  ghost function NamedProjects(abc: Alphabet, rules: seq<ProjectRule>, fields: seq<string>): set<string> {
    set i | 0 <= i < |rules| && NamedIn(abc, rules, fields, i) :: rules[i].project
  }

  /** A named project that outranks every other named project. */
  ghost predicate Outranks(rules: seq<ProjectRule>, named: set<string>, i: nat)
    requires i < |rules|
  {
    && rules[i].project in named
    && forall j | 0 <= j < |rules| && j != i && rules[j].project in named :: rules[j].priority < rules[i].priority
  }

  ghost predicate Decides(rules: seq<ProjectRule>, named: set<string>, tag: string) {
    if exists i :: 0 <= i < |rules| && Outranks(rules, named, i)
    then exists i :: 0 <= i < |rules| && Outranks(rules, named, i) && tag == rules[i].project
    else tag == UNKNOWN
  }

  /** The tag of a conversation whose fields are these: the named project of strictly highest
      priority, and the unknown project when there is none. */
  ghost predicate IsAnswer(abc: Alphabet, rules: seq<ProjectRule>, fields: seq<string>, tag: string) {
    Decides(rules, NamedProjects(abc, rules, fields), tag)
  }

  /** A rule whose aliases have no order. */
  datatype Entry = Entry(project: string, aliases: set<string>, priority: int)

  function EntryOf(rule: ProjectRule): Entry {
    Entry(rule.project, (set alias | alias in rule.aliases), rule.priority)
  }

  /** What a configuration says, whatever the order it says it in. */
  function Entries(rules: seq<ProjectRule>): set<Entry> {
    set i | 0 <= i < |rules| :: EntryOf(rules[i])
  }

  lemma {:induction false} Counterpart(a: seq<ProjectRule>, b: seq<ProjectRule>, i: nat) returns (j: nat)
    requires Entries(a) == Entries(b) && i < |a|
    ensures j < |b| && EntryOf(a[i]) == EntryOf(b[j])
    ensures a[i].project == b[j].project && a[i].priority == b[j].priority
  {
    assert EntryOf(a[i]) in Entries(a);
    j :| 0 <= j < |b| && EntryOf(b[j]) == EntryOf(a[i]);
  }

  lemma {:induction false} SameClaims(abc: Alphabet, a: ProjectRule, b: ProjectRule, key: string)
    requires EntryOf(a) == EntryOf(b) && Claims(abc, a, key)
    ensures Claims(abc, b, key)
  {
    var i :| 0 <= i < |a.aliases| && AliasKey(abc, a.aliases[i]) == key;
    assert a.aliases[i] in EntryOf(a).aliases;
    var j :| 0 <= j < |b.aliases| && b.aliases[j] == a.aliases[i];
  }

  lemma {:induction false} KeysGoAlong(abc: Alphabet, a: seq<ProjectRule>, b: seq<ProjectRule>)
    requires Entries(a) == Entries(b)
    ensures KeysOf(abc, a) <= KeysOf(abc, b)
  {
    forall key | key in KeysOf(abc, a) ensures key in KeysOf(abc, b) {
      var i, x :| 0 <= i < |a| && 0 <= x < |a[i].aliases| && AliasKey(abc, a[i].aliases[x]) == key;
      assert Claims(abc, a[i], key);
      var j := Counterpart(a, b, i);
      SameClaims(abc, a[i], b[j], key);
      var y :| 0 <= y < |b[j].aliases| && AliasKey(abc, b[j].aliases[y]) == key;
    }
  }

  lemma {:induction false} NamedGoAlong(abc: Alphabet, a: seq<ProjectRule>, b: seq<ProjectRule>, fields: seq<string>)
    requires Entries(a) == Entries(b)
    ensures NamedProjects(abc, a, fields) <= NamedProjects(abc, b, fields)
  {
    KeysGoAlong(abc, a, b);
    KeysGoAlong(abc, b, a);
    assert KeysOf(abc, a) == KeysOf(abc, b);
    var keys := KeysInFields(abc, KeysOf(abc, a), fields);
    forall p | p in NamedProjects(abc, a, fields) ensures p in NamedProjects(abc, b, fields) {
      var i :| 0 <= i < |a| && NamedIn(abc, a, fields, i) && a[i].project == p;
      var key :| key in keys && Claims(abc, a[i], key);
      var j := Counterpart(a, b, i);
      SameClaims(abc, a[i], b[j], key);
      assert NamedIn(abc, b, fields, j);
    }
  }

  lemma {:induction false} OutranksAlong(a: seq<ProjectRule>, b: seq<ProjectRule>, named: set<string>, i: nat) returns (j: nat)
    requires ProjectsDiffer(b) && Entries(a) == Entries(b)
    requires i < |a| && Outranks(a, named, i)
    ensures j < |b| && Outranks(b, named, j) && a[i].project == b[j].project
  {
    j := Counterpart(a, b, i);
    forall other | 0 <= other < |b| && other != j && b[other].project in named
      ensures b[other].priority < b[j].priority
    {
      var k := Counterpart(b, a, other);
      assert b[other].project != b[j].project;
    }
  }

  lemma {:induction false} SameDecision(a: seq<ProjectRule>, b: seq<ProjectRule>, named: set<string>, tagA: string, tagB: string)
    requires ProjectsDiffer(a) && ProjectsDiffer(b) && Entries(a) == Entries(b)
    requires Decides(a, named, tagA) && Decides(b, named, tagB)
    ensures tagA == tagB
  {
    if i :| 0 <= i < |a| && Outranks(a, named, i) && tagA == a[i].project {
      var j := OutranksAlong(a, b, named, i);
      var k :| 0 <= k < |b| && Outranks(b, named, k) && tagB == b[k].project;
      assert j == k;
    } else if j :| 0 <= j < |b| && Outranks(b, named, j) && tagB == b[j].project {
      var i := OutranksAlong(b, a, named, j);
      assert false;
    }
  }

  /** Moving rules or aliases about in the configuration reclassifies nothing. */
  lemma {:induction false} OrderReclassifiesNothing(abc: Alphabet, a: seq<ProjectRule>, b: seq<ProjectRule>, fields: seq<string>,
                                                   tagA: string, tagB: string)
    requires ProjectsDiffer(a) && ProjectsDiffer(b) && Entries(a) == Entries(b)
    requires IsAnswer(abc, a, fields, tagA) && IsAnswer(abc, b, fields, tagB)
    ensures tagA == tagB
  {
    NamedGoAlong(abc, a, b, fields);
    NamedGoAlong(abc, b, a, fields);
    assert NamedProjects(abc, a, fields) == NamedProjects(abc, b, fields);
    SameDecision(a, b, NamedProjects(abc, a, fields), tagA, tagB);
  }

  // ---------------------------------------------------------------------------------------------
  // Running it
  // ---------------------------------------------------------------------------------------------

  /** The joined text names what its fields name. */
  lemma {:induction false} FieldsJoined(abc: Alphabet, ordered: seq<string>, keys: set<string>, fields: seq<string>)
    requires Regular(abc) && Lists(ordered, keys) && Keys(abc, ordered)
    ensures KeysNamed(abc, keys, Fold(abc, Joined(fields)), 0) == KeysInFields(abc, keys, [Joined(fields)])
    ensures NulFree(ordered) ==> KeysNamed(abc, keys, Fold(abc, Joined(fields)), 0) == KeysInFields(abc, keys, fields)
  {
    var joined := [Joined(fields)];
    assert joined[1..] == [];
    assert KeysInFields(abc, keys, joined[1..]) == {};
    if NulFree(ordered) {
      FoldJoined(abc, fields);
      JoinForgesNothing(abc, ordered, FoldAll(abc, fields));
      KeysMatchedAreNamed(abc, ordered, keys, Fold(abc, Joined(fields)), 0);
      EachField(abc, ordered, keys, fields);
    }
  }

  lemma {:induction false} EachField(abc: Alphabet, ordered: seq<string>, keys: set<string>, fields: seq<string>)
    requires abc.isSpace(' ') && Lists(ordered, keys) && Keys(abc, ordered)
    ensures KeysOfEach(abc, ordered, FoldAll(abc, fields)) == KeysInFields(abc, keys, fields)
  {
    if fields != [] {
      EachField(abc, ordered, keys, fields[1..]);
      KeysMatchedAreNamed(abc, ordered, keys, Fold(abc, fields[0]), 0);
    }
  }

  /** The owners of the keys named are the projects named. */
  lemma {:induction false} OwnersAreNamed(abc: Alphabet, rules: seq<ProjectRule>, fields: seq<string>)
    requires ClaimsAgree(abc, rules)
    ensures Owners(ProjectOf(abc, rules), KeysInFields(abc, KeysOf(abc, rules), fields)) == NamedProjects(abc, rules, fields)
  {
    var keys := KeysInFields(abc, KeysOf(abc, rules), fields);
    var owners, named := Owners(ProjectOf(abc, rules), keys), NamedProjects(abc, rules, fields);
    forall p ensures p in owners <==> p in named {
      if p in owners {
        var key :| key in keys && key in ProjectOf(abc, rules) && ProjectOf(abc, rules)[key] == p;
        OwnerIsUnique(abc, rules, key, p);
        var i :| 0 <= i < |rules| && rules[i].project == p && Claims(abc, rules[i], key);
        assert NamedIn(abc, rules, fields, i);
      }
      if p in named {
        var i :| 0 <= i < |rules| && NamedIn(abc, rules, fields, i) && rules[i].project == p;
        var key :| key in keys && Claims(abc, rules[i], key);
        OwnerIsUnique(abc, rules, key, p);
      }
    }
  }

  function PriorityOf(rules: seq<ProjectRule>): map<string, int> {
    if rules == [] then map[]
    else PriorityOf(rules[..|rules| - 1])[rules[|rules| - 1].project := rules[|rules| - 1].priority]
  }

  predicate Declares(rules: seq<ProjectRule>, project: string) {
    exists i :: 0 <= i < |rules| && rules[i].project == project
  }

  lemma {:induction false} PriorityOfRule(rules: seq<ProjectRule>)
    requires ProjectsDiffer(rules)
    ensures forall i | 0 <= i < |rules| :: rules[i].project in PriorityOf(rules) && PriorityOf(rules)[rules[i].project] == rules[i].priority
    ensures forall p | p in PriorityOf(rules) :: Declares(rules, p)
  {
    if rules != [] {
      var n := |rules| - 1;
      var before := rules[..n];
      PriorityOfRule(before);
      assert forall i | 0 <= i < n :: before[i] == rules[i];
      forall p | p in PriorityOf(rules) ensures Declares(rules, p) {
        if p in PriorityOf(before) {
          assert Declares(before, p);
          var i :| 0 <= i < n && before[i].project == p;
          assert rules[i].project == p;
        } else {
          assert rules[n].project == p;
        }
      }
    }
  }

  lemma {:induction false} NamedHavePriority(abc: Alphabet, rules: seq<ProjectRule>, fields: seq<string>)
    requires ProjectsDiffer(rules)
    ensures NamedProjects(abc, rules, fields) <= PriorityOf(rules).Keys
  {
    PriorityOfRule(rules);
  }

  lemma {:induction false} HighestDecides(rules: seq<ProjectRule>, named: set<string>, tied: set<string>, highest: int, one: string)
    requires ProjectsDiffer(rules) && named <= PriorityOf(rules).Keys
    requires forall p | p in named :: PriorityOf(rules)[p] <= highest
    requires forall p :: p in tied <==> p in named && PriorityOf(rules)[p] == highest
    requires one in tied
    ensures Decides(rules, named, if |tied| > 1 then UNKNOWN else one)
  {
    PriorityOfRule(rules);
    assert Declares(rules, one);
    var i :| 0 <= i < |rules| && rules[i].project == one;
    if |tied| > 1 {
      assert |tied - {one}| > 0;
      var other :| other in tied - {one};
      assert Declares(rules, other);
      var j :| 0 <= j < |rules| && rules[j].project == other;
      forall k | 0 <= k < |rules| ensures !Outranks(rules, named, k) {
        assert rules[k].project in named ==> rules[k].priority <= highest;
        assert i != k || j != k;
      }
    } else {
      assert |tied - {one}| == 0;
      forall j | 0 <= j < |rules| && j != i && rules[j].project in named
        ensures rules[j].priority < rules[i].priority
      {
        assert rules[j].project !in tied - {one};
      }
      assert Outranks(rules, named, i);
    }
  }

  lemma {:induction false} NextActivityTexts(activities: seq<ToolActivity>, a: nat)
    requires a < |activities|
    ensures ActivityTexts(activities[..a + 1]) == ActivityTexts(activities[..a]) + OneActivityTexts(activities[a])
  {
    assert activities[..a + 1][..a] == activities[..a];
  }

  method SweepActivities(before: seq<string>, activities: seq<ToolActivity>) returns (parts: seq<string>)
    ensures parts == before + ActivityTexts(activities)
  {
    parts := before;
    assert activities[..0] == [];
    for a := 0 to |activities|
      invariant parts == before + ActivityTexts(activities[..a])
    {
      var activity := activities[a];
      ghost var was := parts;
      parts := parts + [activity.name];
      if activity.request.Some? {
        parts := parts + [activity.request.value];
      }
      if activity.result.Some? {
        parts := parts + [activity.result.value];
      }
      assert parts == was + OneActivityTexts(activity);
      NextActivityTexts(activities, a);
      Append(before, ActivityTexts(activities[..a]), OneActivityTexts(activity));
    }
    assert activities[..|activities|] == activities;
  }

  method SweepParts(before: seq<string>, nonText: seq<NonTextPart>) returns (parts: seq<string>)
    ensures parts == before + PartTexts(nonText)
  {
    parts := before;
    assert nonText[..0] == [];
    for p := 0 to |nonText|
      invariant parts == before + PartTexts(nonText[..p])
    {
      assert nonText[..p + 1][..p] == nonText[..p];
      if nonText[p].name.Some? {
        parts := parts + [nonText[p].name.value];
      }
    }
    assert nonText[..|nonText|] == nonText;
  }

  method SweepMessage(before: seq<string>, message: Message) returns (parts: seq<string>)
    ensures parts == before + MessageTexts(message)
  {
    parts := before + [message.text];
    parts := SweepActivities(parts, message.toolActivity);
    parts := SweepParts(parts, message.nonTextParts);
  }

  lemma {:induction false} NextMessageTexts(messages: seq<Message>, i: nat)
    requires i < |messages|
    ensures MessagesTexts(messages[..i + 1]) == MessagesTexts(messages[..i]) + MessageTexts(messages[i])
  {
    assert messages[..i + 1][..i] == messages[..i];
  }

  method SweepMessages(before: seq<string>, messages: seq<Message>) returns (parts: seq<string>)
    ensures parts == before + MessagesTexts(messages)
  {
    parts := before;
    for i := 0 to |messages|
      invariant parts == before + MessagesTexts(messages[..i])
    {
      ghost var was := parts;
      parts := SweepMessage(parts, messages[i]);
      NextMessageTexts(messages, i);
      Append(before, MessagesTexts(messages[..i]), MessageTexts(messages[i]));
    }
    assert messages[..|messages|] == messages;
  }

  lemma {:induction false} Append(a: seq<string>, b: seq<string>, c: seq<string>)
    ensures (a + b) + c == a + (b + c)
  {
  }

  /** The text searched: every field that carries a person's or a tool's words, separated by NUL. */
  method Sweep(c: Conversation) returns (text: string)
    ensures text == Joined(ConversationTexts(c))
  {
    var parts := [];
    if c.title.Some? {
      parts := parts + [c.title.value];
    }
    assert parts == FieldTexts(c.title);
    parts := SweepMessages(parts, c.messages);
    text := Joined(parts);
  }

  class AliasProjectClassifier {
    const priorityOf: map<string, int>
    const matcher: AliasMatcher

    ghost predicate Serves(rules: seq<ProjectRule>) {
      RulesOk(matcher.abc, rules) && matcher.Serves(rules) && priorityOf == PriorityOf(rules)
    }

    constructor (abc: Alphabet, rules: seq<ProjectRule>)
      requires Regular(abc) && RulesOk(abc, rules)
      ensures matcher.abc == abc && Serves(rules)
    {
      var built := new AliasMatcher(abc, rules);
      priorityOf := PriorityOf(rules);
      matcher := built;
    }

    /** The one of highest priority, unless the highest is shared. */
    method Resolve(ghost rules: seq<ProjectRule>, named: set<string>) returns (tag: string)
      requires Serves(rules) && named != {} && named <= priorityOf.Keys
      ensures Decides(rules, named, tag)
    {
      var first :| first in named;
      var highest, rest := priorityOf[first], named;
      while rest != {}
        invariant rest <= named
        invariant exists p :: p in named && priorityOf[p] == highest
        invariant forall p | p in named && p !in rest :: priorityOf[p] <= highest
        decreases |rest|
      {
        var project :| project in rest;
        if priorityOf[project] > highest {
          highest := priorityOf[project];
        }
        rest := rest - {project};
      }
      var tied := set p | p in named && priorityOf[p] == highest;
      var one :| one in named && priorityOf[one] == highest;
      tag := if |tied| > 1 then UNKNOWN else one;
      HighestDecides(rules, named, tied, highest, one);
    }

    /** The project named, the one of highest priority among several, or unknown. */
    method Decide(ghost rules: seq<ProjectRule>, named: set<string>) returns (tag: string)
      requires Serves(rules) && named <= priorityOf.Keys
      ensures Decides(rules, named, tag)
    {
      if named == {} {
        tag := UNKNOWN;
      } else if |named| == 1 {
        tag :| tag in named;
        assert |named - {tag}| == 0;
        HighestDecides(rules, named, named, priorityOf[tag], tag);
      } else {
        tag := Resolve(rules, named);
      }
    }

    method Classify(ghost rules: seq<ProjectRule>, c: Conversation) returns (tag: string)
      requires Serves(rules)
      ensures IsAnswer(matcher.abc, rules, [Joined(ConversationTexts(c))], tag)
      ensures AliasesNulFree(rules) ==> IsAnswer(matcher.abc, rules, ConversationTexts(c), tag)
    {
      var text := Sweep(c);
      var named := matcher.ProjectsNamed(rules, text);
      NamedInFields(rules, ConversationTexts(c), named);
      tag := Decide(rules, named);
    }

    lemma {:induction false} NamedInFields(rules: seq<ProjectRule>, fields: seq<string>, named: set<string>)
      requires Serves(rules)
      requires named == matcher.ProjectsNamed(rules, Joined(fields))
      ensures named == NamedProjects(matcher.abc, rules, [Joined(fields)]) && named <= priorityOf.Keys
      ensures AliasesNulFree(rules) ==> named == NamedProjects(matcher.abc, rules, fields)
    {
      FieldsJoined(matcher.abc, matcher.ordered, matcher.projectOf.Keys, fields);
      OwnersAreNamed(matcher.abc, rules, [Joined(fields)]);
      OwnersAreNamed(matcher.abc, rules, fields);
      NamedHavePriority(matcher.abc, rules, [Joined(fields)]);
    }
  }
}
