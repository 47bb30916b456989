/** Validation of the configuration, and what it buys: first-match scans over the admission lists
    and the table of API keys are maps. */
module Configuration {
  import opened Options
  import opened Sequences
  import opened Text
  import opened AdmissionConfig
  import opened Routing
  import opened Isolation

  /** Departments in the order of the configuration file, with their normalised API keys. */
  datatype Department = Department(name: string, apiKeys: seq<string>)

  datatype AppConfig = AppConfig(upstreams: seq<Upstream>, departments: seq<Department>, admission: Admission)

  datatype Problem =
    | DuplicateUpstream
    | EmptyDepartment
    | DuplicateApiKey
    | UnknownModel
    | DuplicatePair
    | UnknownDepartment

  datatype Validated<T> = Valid(value: T) | Invalid(problem: Problem)

  // ------------------------------------------------------------------ API keys

  function Named(name: string, apiKeys: seq<string>): seq<(string, string)> {
    seq(|apiKeys|, i requires 0 <= i < |apiKeys| => (apiKeys[i], Strip(name)))
  }

  /** All API keys with the department each is listed under. */
  function Entries(departments: seq<Department>): seq<(string, string)> {
    if departments == [] then []
    else
      Entries(departments[..|departments| - 1])
      + Named(departments[|departments| - 1].name, departments[|departments| - 1].apiKeys)
  }

  /** Every department has a name, and no API key is listed twice, not even in one department. */
  ghost predicate KeysAreSound(departments: seq<Department>) {
    (forall d <- departments :: Strip(d.name) != "") && KeysDiffer(Entries(departments))
  }

  ghost predicate KeysDiffer(entries: seq<(string, string)>) {
    DistinctBy(entries, (e: (string, string)) => e.0)
  }

  /** The table lists these entries and nothing else. */
  ghost predicate Lists(table: map<string, string>, entries: seq<(string, string)>) {
    && (forall e <- entries :: e.0 in table && table[e.0] == e.1)
    && (forall key <- table :: exists e <- entries :: e.0 == key)
  }

  /** The problem found is the first there is: everything before department `at` is sound. */
  ghost predicate FirstProblem(departments: seq<Department>, problem: Problem, at: nat) {
    && at < |departments|
    && KeysAreSound(departments[..at])
    && (problem == EmptyDepartment <==> Strip(departments[at].name) == "")
    && (problem == DuplicateApiKey <==> Strip(departments[at].name) != "" && !KeysAreSound(departments[..at + 1]))
  }

  lemma EntriesSnoc(departments: seq<Department>, n: nat)
    requires n < |departments|
    ensures Entries(departments[..n + 1]) ==
            Entries(departments[..n]) + Named(departments[n].name, departments[n].apiKeys)
  {
    assert departments[..n + 1][..n] == departments[..n];
  }

  /** Taking up a key that is not listed yet. */
  lemma ListOneMore(table: map<string, string>, entries: seq<(string, string)>, key: string, department: string)
    requires Lists(table, entries) && KeysDiffer(entries) && key !in table
    ensures Lists(table[key := department], entries + [(key, department)])
    ensures KeysDiffer(entries + [(key, department)])
  {
    assert forall e <- entries + [(key, department)] :: e in entries || e == (key, department);
    assert (entries + [(key, department)])[|entries|] == (key, department);
    assert forall i | 0 <= i < |entries| :: entries[i] in entries;
  }

  /** A key that is listed already makes every longer list ambiguous. */
  lemma ListedTwice(
    table: map<string, string>, entries: seq<(string, string)>, key: string, department: string,
    more: seq<(string, string)>)
    requires Lists(table, entries) && key in table
    ensures !KeysDiffer(entries + [(key, department)] + more)
  {
    var e :| e in entries && e.0 == key;
    var i :| 0 <= i < |entries| && entries[i] == e;
    var all := entries + [(key, department)] + more;
    assert all[i].0 == all[|entries|].0;
  }

  /** Takes up the keys of one department, or finds one that is listed already. */
  method ListDepartment(
    name: string, apiKeys: seq<string>, seen: set<string>, table: map<string, string>,
    ghost entries: seq<(string, string)>)
    returns (seenAfter: set<string>, tableAfter: map<string, string>, duplicate: bool)
    requires Lists(table, entries) && KeysDiffer(entries) && table.Keys == seen
    ensures duplicate <==> !KeysDiffer(entries + Named(name, apiKeys))
    ensures !duplicate ==> Lists(tableAfter, entries + Named(name, apiKeys)) && tableAfter.Keys == seenAfter
  {
    seenAfter, tableAfter := seen, table;
    ghost var named := Named(name, apiKeys);
    assert entries + named[..0] == entries;
    for i := 0 to |apiKeys|
      invariant Lists(tableAfter, entries + named[..i]) && KeysDiffer(entries + named[..i])
      invariant tableAfter.Keys == seenAfter
    {
      assert entries + named == entries + named[..i] + [named[i]] + named[i + 1..];
      assert entries + named[..i] + [named[i]] == entries + named[..i + 1];
      if apiKeys[i] in seenAfter {
        ListedTwice(tableAfter, entries + named[..i], apiKeys[i], Strip(name), named[i + 1..]);
        return seenAfter, tableAfter, true;
      }
      ListOneMore(tableAfter, entries + named[..i], apiKeys[i], Strip(name));
      seenAfter := seenAfter + {apiKeys[i]};
      tableAfter := tableAfter[apiKeys[i] := Strip(name)];
    }
    assert named[..|apiKeys|] == named;
    duplicate := false;
  }

  /** Builds the table of API keys, or reports the first problem. */
  method BuildKeyTable(departments: seq<Department>) returns (r: Validated<map<string, string>>, ghost at: nat)
    ensures r.Valid? <==> KeysAreSound(departments)
    ensures r.Valid? ==> Lists(r.value, Entries(departments))
    ensures r.Invalid? ==> FirstProblem(departments, r.problem, at)
    ensures r.Invalid? ==> r.problem in {EmptyDepartment, DuplicateApiKey}
  {
    var seen: set<string>, table: map<string, string> := {}, map[];
    at := 0;
    for n := 0 to |departments|
      invariant KeysAreSound(departments[..n])
      invariant Lists(table, Entries(departments[..n])) && table.Keys == seen
    {
      at := n;
      var d := departments[n];
      EntriesSnoc(departments, n);
      assert departments[n] in departments;
      if Strip(d.name) == "" {
        return Invalid(EmptyDepartment), at;
      }
      var duplicate;
      seen, table, duplicate := ListDepartment(d.name, d.apiKeys, seen, table, Entries(departments[..n]));
      if duplicate {
        SoundPrefix(departments, n + 1);
        return Invalid(DuplicateApiKey), at;
      }
      assert forall d <- departments[..n + 1] :: d in departments[..n] || d == departments[n];
    }
    assert departments[..|departments|] == departments;
    r := Valid(table);
  }

  lemma {:induction false} SoundPrefix(departments: seq<Department>, n: nat)
    requires n <= |departments|
    ensures KeysAreSound(departments) ==> KeysAreSound(departments[..n])
    decreases |departments| - n
  {
    if n < |departments| {
      SoundPrefix(departments, n + 1);
      EntriesSnoc(departments, n);
      var shorter, longer := Entries(departments[..n]), Entries(departments[..n + 1]);
      assert forall i | 0 <= i < |shorter| :: shorter[i] == longer[i];
      assert forall d <- departments[..n] :: d in departments[..n + 1];
    } else {
      assert departments[..n] == departments;
    }
  }

  /** The department of an API key by looking through the departments in order. */
  function Owner(departments: seq<Department>, apiKey: string): Option<string> {
    if departments == [] then None
    else if apiKey in departments[0].apiKeys then Some(Strip(departments[0].name))
    else Owner(departments[1..], apiKey)
  }

  function Resolve(table: map<string, string>, apiKey: string): Option<string> {
    if apiKey in table then Some(table[apiKey]) else None
  }

  lemma {:induction false} EntriesListed(departments: seq<Department>, i: nat, apiKey: string)
    requires i < |departments| && apiKey in departments[i].apiKeys
    ensures (apiKey, Strip(departments[i].name)) in Entries(departments)
  {
    var last := departments[|departments| - 1];
    if i == |departments| - 1 {
      var k :| 0 <= k < |last.apiKeys| && last.apiKeys[k] == apiKey;
      assert Named(last.name, last.apiKeys)[k] in Named(last.name, last.apiKeys);
    } else {
      EntriesListed(departments[..|departments| - 1], i, apiKey);
    }
  }

  lemma {:induction false} EntriesComeFrom(departments: seq<Department>, e: (string, string))
    requires e in Entries(departments)
    ensures exists i | 0 <= i < |departments| :: e.0 in departments[i].apiKeys && Strip(departments[i].name) == e.1
  {
    var before, last := departments[..|departments| - 1], departments[|departments| - 1];
    if e in Entries(before) {
      EntriesComeFrom(before, e);
      var i :| 0 <= i < |before| && e.0 in before[i].apiKeys && Strip(before[i].name) == e.1;
      assert departments[i] == before[i];
    } else {
      var k :| 0 <= k < |last.apiKeys| && Named(last.name, last.apiKeys)[k] == e;
      assert last.apiKeys[k] == e.0;
    }
  }

  lemma {:induction false} OwnerIsListed(departments: seq<Department>, apiKey: string)
    ensures match Owner(departments, apiKey)
            case Some(name) =>
              exists i | 0 <= i < |departments| ::
                apiKey in departments[i].apiKeys && Strip(departments[i].name) == name
            case None => forall d <- departments :: apiKey !in d.apiKeys
  {
    if departments != [] && apiKey !in departments[0].apiKeys {
      OwnerIsListed(departments[1..], apiKey);
      assert forall d <- departments :: d == departments[0] || d in departments[1..];
      if Owner(departments, apiKey).Some? {
        var i :| 0 <= i < |departments[1..]| && apiKey in departments[1..][i].apiKeys
                 && Strip(departments[1..][i].name) == Owner(departments, apiKey).value;
        assert departments[i + 1] == departments[1..][i];
      }
    }
  }

  /** The table answers every API key as looking through the departments would. */
  lemma TableIsLinearScan(departments: seq<Department>, table: map<string, string>, apiKey: string)
    requires Lists(table, Entries(departments))
    ensures Resolve(table, apiKey) == Owner(departments, apiKey)
  {
    OwnerIsListed(departments, apiKey);
    match Owner(departments, apiKey)
    case Some(name) =>
      var i :| 0 <= i < |departments| && apiKey in departments[i].apiKeys && Strip(departments[i].name) == name;
      EntriesListed(departments, i, apiKey);
    case None =>
      if apiKey in table {
        var e :| e in Entries(departments) && e.0 == apiKey;
        EntriesComeFrom(departments, e);
        assert false;
      }
  }

  lemma {:induction false} SharedKeyIsUnsound(departments: seq<Department>, low: nat, high: nat, apiKey: string)
    requires low < high < |departments|
    requires apiKey in departments[low].apiKeys && apiKey in departments[high].apiKeys
    ensures !KeysAreSound(departments)
  {
    EntriesListed(departments[..high], low, apiKey);
    var before, named := Entries(departments[..high]), Named(departments[high].name, departments[high].apiKeys);
    var a :| 0 <= a < |before| && before[a] == (apiKey, Strip(departments[low].name));
    var b :| 0 <= b < |named| && departments[high].apiKeys[b] == apiKey;
    var entries := before + named;
    assert entries[a].0 == entries[|before| + b].0;
    EntriesSnoc(departments, high);
    SoundPrefix(departments, high + 1);
  }

  /** No API key belongs to two departments. */
  lemma OneOwner(departments: seq<Department>, i: nat, j: nat, apiKey: string)
    requires KeysAreSound(departments) && i < |departments| && j < |departments|
    requires apiKey in departments[i].apiKeys && apiKey in departments[j].apiKeys
    ensures i == j
  {
    if i < j {
      SharedKeyIsUnsound(departments, i, j, apiKey);
    } else if j < i {
      SharedKeyIsUnsound(departments, j, i, apiKey);
    }
  }

  /** Some API key is listed by two departments. */
  ghost predicate SharesKey(departments: seq<Department>) {
    exists i, j, apiKey | 0 <= i < j < |departments| ::
      apiKey in departments[i].apiKeys && apiKey in departments[j].apiKeys
  }

  /** Some department lists an API key twice. */
  ghost predicate RepeatsKey(departments: seq<Department>) {
    exists d <- departments :: !Distinct(d.apiKeys)
  }

  lemma RepeatIsUnsound(departments: seq<Department>, n: nat)
    requires n < |departments| && !Distinct(departments[n].apiKeys)
    ensures !KeysAreSound(departments)
  {
    var apiKeys, named := departments[n].apiKeys, Named(departments[n].name, departments[n].apiKeys);
    var i, j :| 0 <= i < j < |apiKeys| && apiKeys[i] == apiKeys[j];
    var before := Entries(departments[..n]);
    EntriesSnoc(departments, n);
    var entries := before + named;
    assert entries[|before| + i].0 == entries[|before| + j].0;
    SoundPrefix(departments, n + 1);
  }

  lemma NewKeysDiffer(departments: seq<Department>, n: nat)
    requires n < |departments| && KeysDiffer(Entries(departments[..n]))
    requires Distinct(departments[n].apiKeys) && !SharesKey(departments)
    ensures KeysDiffer(Entries(departments[..n + 1]))
  {
    var before, named := Entries(departments[..n]), Named(departments[n].name, departments[n].apiKeys);
    EntriesSnoc(departments, n);
    forall i, j | 0 <= i < |before| && 0 <= j < |named| ensures before[i].0 != named[j].0 {
      EntriesComeFrom(departments[..n], before[i]);
      var d :| 0 <= d < n && before[i].0 in departments[..n][d].apiKeys;
      assert departments[d] == departments[..n][d];
      assert before[i].0 in departments[d].apiKeys && named[j].0 in departments[n].apiKeys;
    }
  }

  lemma {:induction false} DifferentUnlessRepeated(departments: seq<Department>, n: nat)
    requires n <= |departments| && !SharesKey(departments) && !RepeatsKey(departments)
    ensures KeysDiffer(Entries(departments[..n]))
  {
    if n > 0 {
      DifferentUnlessRepeated(departments, n - 1);
      assert departments[n - 1] in departments;
      NewKeysDiffer(departments, n - 1);
    }
  }

  /** Named departments are refused for their API keys exactly when two departments share a key or
      one department lists a key twice; the message speaks of the first case only. */
  lemma RefusedForKeysIff(departments: seq<Department>)
    requires forall d <- departments :: Strip(d.name) != ""
    ensures !KeysAreSound(departments) <==> SharesKey(departments) || RepeatsKey(departments)
  {
    if SharesKey(departments) {
      var i, j, apiKey :| 0 <= i < j < |departments| && apiKey in departments[i].apiKeys
                          && apiKey in departments[j].apiKeys;
      SharedKeyIsUnsound(departments, i, j, apiKey);
    } else if RepeatsKey(departments) {
      var d :| d in departments && !Distinct(d.apiKeys);
      var n :| 0 <= n < |departments| && departments[n] == d;
      RepeatIsUnsound(departments, n);
    } else {
      DifferentUnlessRepeated(departments, |departments|);
      assert departments[..|departments|] == departments;
    }
  }

  /** A single department that lists one key twice is refused, though no key belongs to more than one
      department. */
  lemma RepeatedKeyIsRefused()
    ensures var departments := [Department("a", ["k", "k"])];
            !KeysAreSound(departments) && !SharesKey(departments)
  {
    var departments := [Department("a", ["k", "k"])];
    assert departments[0].apiKeys[0] == departments[0].apiKeys[1];
    RepeatIsUnsound(departments, 0);
  }

  // ------------------------------------------------------------------ admission pairs

  method ValidateUniquePairs(pairs: seq<Key>) returns (unique: bool)
    ensures unique <==> Distinct(pairs)
  {
    var seen: set<Key> := {};
    for i := 0 to |pairs|
      invariant Distinct(pairs[..i])
      invariant forall key :: key in seen <==> key in pairs[..i]
    {
      if pairs[i] in seen {
        var j :| 0 <= j < i && pairs[..i][j] == pairs[i];
        assert pairs[j] == pairs[i];
        return false;
      }
      seen := seen + {pairs[i]};
    }
    assert pairs[..|pairs|] == pairs;
    unique := true;
  }

  function LimitKeys(limits: seq<DepartmentLimit>): seq<Key> {
    seq(|limits|, i requires 0 <= i < |limits| => limits[i].key)
  }

  function BudgetKeys(budgets: seq<TokenBudget>): seq<Key> {
    seq(|budgets|, i requires 0 <= i < |budgets| => budgets[i].key)
  }

  /** Entries with the same key say the same. */
  ghost predicate Consistent(limits: seq<DepartmentLimit>) {
    forall a <- limits, b <- limits :: a.key == b.key ==> a == b
  }

  /** The map built from a list by taking up its entries in order. */
  function MapOf(limits: seq<DepartmentLimit>): map<Key, int> {
    if limits == [] then map[]
    else MapOf(limits[..|limits| - 1])[limits[|limits| - 1].key := limits[|limits| - 1].maxActive]
  }

  lemma {:induction false} MapOfEntries(limits: seq<DepartmentLimit>)
    requires Consistent(limits)
    ensures forall key, n :: (key in MapOf(limits) && MapOf(limits)[key] == n) <==> DepartmentLimit(key, n) in limits
  {
    if limits != [] {
      var before, last := limits[..|limits| - 1], limits[|limits| - 1];
      assert forall l <- limits :: l in before || l == last;
      assert forall l <- before :: l in limits;
      MapOfEntries(before);
    }
  }

  /** The answer to a scan does not depend on the order of the list. */
  ghost predicate OrderFree(limits: seq<DepartmentLimit>) {
    forall other: seq<DepartmentLimit>, key | multiset(other) == multiset(limits) ::
      LimitOf(other, key) == LimitOf(limits, key)
  }

  lemma SameElements<T>(a: seq<T>, b: seq<T>)
    requires multiset(a) == multiset(b)
    ensures forall x :: x in a <==> x in b
  {
    forall x ensures x in a <==> x in b {
      assert x in a <==> x in multiset(a);
      assert x in b <==> x in multiset(b);
    }
  }

  /** Scanning a list is order-free exactly when entries with the same key say the same. */
  lemma OrderFreeIffConsistent(limits: seq<DepartmentLimit>)
    ensures OrderFree(limits) <==> Consistent(limits)
  {
    if Consistent(limits) {
      forall other: seq<DepartmentLimit>, key | multiset(other) == multiset(limits)
        ensures LimitOf(other, key) == LimitOf(limits, key)
      {
        SameElements(other, limits);
      }
    }
    if OrderFree(limits) {
      forall a <- limits, b <- limits | a.key == b.key ensures a == b {
        MoveToFront(limits, a);
        MoveToFront(limits, b);
      }
    }
  }

  lemma SameMultiset<T>(s: seq<T>, i: nat)
    requires i < |s|
    ensures multiset([s[i]] + (s[..i] + s[i + 1..])) == multiset(s)
  {
    assert s == s[..i] + ([s[i]] + s[i + 1..]);
  }

  lemma MoveToFront(limits: seq<DepartmentLimit>, a: DepartmentLimit)
    requires a in limits && OrderFree(limits)
    ensures LimitOf(limits, a.key) == Some(a.maxActive)
  {
    var i :| 0 <= i < |limits| && limits[i] == a;
    var other := [a] + (limits[..i] + limits[i + 1..]);
    SameMultiset(limits, i);
    assert LimitOf(other, a.key) == LimitOf(limits, a.key);
  }

  /** With unique pairs, a first-match scan is a lookup in the map built from the list in any
      order. */
  lemma ScanIsLookup(limits: seq<DepartmentLimit>, other: seq<DepartmentLimit>, key: Key)
    requires UniqueKeys(limits) && multiset(other) == multiset(limits)
    ensures LimitOf(limits, key) == (if key in MapOf(other) then Some(MapOf(other)[key]) else None)
  {
    UniqueIsConsistent(limits);
    SameElements(other, limits);
    MapOfEntries(other);
    match LimitOf(limits, key)
    case Some(n) =>
    case None =>
      if key in MapOf(other) {
        assert DepartmentLimit(key, MapOf(other)[key]) in limits;
        assert false;
      }
  }

  lemma UniqueIsConsistent(limits: seq<DepartmentLimit>)
    requires UniqueKeys(limits)
    ensures Consistent(limits)
  {
    forall a <- limits, b <- limits | a.key == b.key ensures a == b {
      var i :| 0 <= i < |limits| && limits[i] == a;
      var j :| 0 <= j < |limits| && limits[j] == b;
    }
  }

  /** The same for token budgets. */
  lemma BudgetScanIsOrderFree(budgets: seq<TokenBudget>, other: seq<TokenBudget>, key: Key)
    requires Distinct(BudgetKeys(budgets)) && multiset(other) == multiset(budgets)
    ensures BudgetOf(other, key) == BudgetOf(budgets, key)
  {
    SameElements(other, budgets);
    if BudgetOf(budgets, key).Some? {
      var a, b := BudgetOf(budgets, key).value, BudgetOf(other, key).value;
      var i :| 0 <= i < |budgets| && budgets[i] == a;
      var j :| 0 <= j < |budgets| && budgets[j] == b;
      assert BudgetKeys(budgets)[i] == BudgetKeys(budgets)[j];
    }
  }

  /** The map built from the list of budgets by taking up its entries in order. */
  function BudgetMap(budgets: seq<TokenBudget>): map<Key, TokenBudget> {
    if budgets == [] then map[]
    else BudgetMap(budgets[..|budgets| - 1])[budgets[|budgets| - 1].key := budgets[|budgets| - 1]]
  }

  ghost predicate BudgetsConsistent(budgets: seq<TokenBudget>) {
    forall a <- budgets, b <- budgets :: a.key == b.key ==> a == b
  }

  lemma {:induction false} BudgetMapEntries(budgets: seq<TokenBudget>)
    requires BudgetsConsistent(budgets)
    ensures forall key, b :: (key in BudgetMap(budgets) && BudgetMap(budgets)[key] == b) <==>
            b in budgets && b.key == key
  {
    if budgets != [] {
      var before, last := budgets[..|budgets| - 1], budgets[|budgets| - 1];
      assert forall b <- budgets :: b in before || b == last;
      assert forall b <- before :: b in budgets;
      BudgetMapEntries(before);
    }
  }

  /** With unique pairs, a first-match budget scan is a lookup in the map built from the list in any
      order. */
  lemma BudgetScanIsLookup(budgets: seq<TokenBudget>, other: seq<TokenBudget>, key: Key)
    requires Distinct(BudgetKeys(budgets)) && multiset(other) == multiset(budgets)
    ensures BudgetOf(budgets, key) == (if key in BudgetMap(other) then Some(BudgetMap(other)[key]) else None)
  {
    SameElements(other, budgets);
    forall a <- budgets, b <- budgets | a.key == b.key ensures a == b {
      var i :| 0 <= i < |budgets| && budgets[i] == a;
      var j :| 0 <= j < |budgets| && budgets[j] == b;
      assert BudgetKeys(budgets)[i] == BudgetKeys(budgets)[j];
    }
    BudgetMapEntries(other);
    match BudgetOf(budgets, key)
    case Some(b) =>
    case None =>
      if key in BudgetMap(other) {
        assert BudgetMap(other)[key] in budgets;
        assert false;
      }
  }

  // ------------------------------------------------------------------ the whole validation

  function ServedModels(upstreams: seq<Upstream>): set<string> {
    set u <- upstreams, m <- u.models :: m
  }

  function UpstreamNames(upstreams: seq<Upstream>): seq<string> {
    seq(|upstreams|, i requires 0 <= i < |upstreams| => upstreams[i].name)
  }

  predicate MentionsKnownModels(a: Admission, models: set<string>) {
    a.globalLimits.Keys <= models && a.shapeLimits.Keys <= models
  }

  ghost predicate PairsDiffer(a: Admission) {
    Distinct(LimitKeys(a.departmentLimits)) && Distinct(BudgetKeys(a.tokenBudgets))
  }

  /** Every name that the admission lists mention exists, and no pair is listed twice. */
  ghost predicate AdmissionIsSound(a: Admission, models: set<string>, departments: set<string>) {
    && MentionsKnownModels(a, models) && PairsDiffer(a)
    && (forall l <- a.departmentLimits :: l.key.department in departments && l.key.model in models)
    && (forall b <- a.tokenBudgets :: b.key.department in departments && b.key.model in models)
  }

  function DepartmentsOf(entries: seq<(string, string)>): set<string> {
    set e <- entries :: e.1
  }

  ghost predicate ConfigIsSound(c: AppConfig) {
    && Distinct(UpstreamNames(c.upstreams))
    && KeysAreSound(c.departments)
    && (c.admission.enabled ==>
          AdmissionIsSound(c.admission, ServedModels(c.upstreams), DepartmentsOf(Entries(c.departments))))
  }

  function SetOf<T>(s: seq<T>): set<T> {
    set x <- s
  }

  lemma {:induction false} SizeTellsDistinct<T>(s: seq<T>)
    ensures |SetOf(s)| <= |s|
    ensures |SetOf(s)| == |s| <==> Distinct(s)
  {
    if s != [] {
      var before, last := s[..|s| - 1], s[|s| - 1];
      SizeTellsDistinct(before);
      assert SetOf(s) == SetOf(before) + {last};
      if last in before {
        var i :| 0 <= i < |before| && before[i] == last;
        assert s[i] == s[|s| - 1];
        assert SetOf(s) == SetOf(before);
      } else {
        assert forall i | 0 <= i < |before| :: s[i] in before;
        assert Distinct(before) <==> Distinct(s);
      }
    }
  }

  method ValidateAdmission(a: Admission, models: set<string>, departments: set<string>)
    returns (r: Validated<Admission>)
    ensures r.Valid? <==> AdmissionIsSound(a, models, departments)
    ensures r.Valid? ==> r.value == a
    ensures r == Invalid(DuplicatePair) <==> MentionsKnownModels(a, models) && !PairsDiffer(a)
    ensures r.Invalid? ==> r.problem in {Problem.UnknownModel, DuplicatePair, UnknownDepartment}
  {
    if !MentionsKnownModels(a, models) {
      return Invalid(Problem.UnknownModel);
    }
    var limitsUnique := ValidateUniquePairs(LimitKeys(a.departmentLimits));
    if !limitsUnique {
      return Invalid(DuplicatePair);
    }
    var budgetsUnique := ValidateUniquePairs(BudgetKeys(a.tokenBudgets));
    if !budgetsUnique {
      return Invalid(DuplicatePair);
    }
    for i := 0 to |a.departmentLimits|
      invariant forall l <- a.departmentLimits[..i] :: l.key.department in departments && l.key.model in models
    {
      var key := a.departmentLimits[i].key;
      if key.department !in departments {
        return Invalid(UnknownDepartment);
      }
      if key.model !in models {
        return Invalid(Problem.UnknownModel);
      }
    }
    assert a.departmentLimits[..|a.departmentLimits|] == a.departmentLimits;
    for i := 0 to |a.tokenBudgets|
      invariant forall b <- a.tokenBudgets[..i] :: b.key.department in departments && b.key.model in models
    {
      var key := a.tokenBudgets[i].key;
      if key.department !in departments {
        return Invalid(UnknownDepartment);
      }
      if key.model !in models {
        return Invalid(Problem.UnknownModel);
      }
    }
    assert a.tokenBudgets[..|a.tokenBudgets|] == a.tokenBudgets;
    r := Valid(a);
  }

  /** Validation accepts exactly the sound configurations, and yields the table of API keys. */
  method ValidateUniqueConstraints(c: AppConfig) returns (r: Validated<map<string, string>>)
    ensures r.Valid? <==> ConfigIsSound(c)
    ensures r == Invalid(DuplicateUpstream) <==> !Distinct(UpstreamNames(c.upstreams))
    ensures r.Invalid? && r.problem in {EmptyDepartment, DuplicateApiKey} ==> !KeysAreSound(c.departments)
    ensures r.Invalid? && r.problem in {Problem.UnknownModel, DuplicatePair, UnknownDepartment} ==>
              Distinct(UpstreamNames(c.upstreams)) && KeysAreSound(c.departments) && c.admission.enabled
    ensures r.Valid? ==> forall key :: Resolve(r.value, key) == Owner(c.departments, key)
  {
    var names := UpstreamNames(c.upstreams);
    SizeTellsDistinct(names);
    if |names| != |SetOf(names)| {
      return Invalid(DuplicateUpstream);
    }
    ghost var at;
    r, at := BuildKeyTable(c.departments);
    if r.Invalid? {
      return;
    }
    if c.admission.enabled {
      var departments := r.value.Values;
      SameDepartments(r.value, Entries(c.departments));
      var admitted := ValidateAdmission(c.admission, ServedModels(c.upstreams), departments);
      if admitted.Invalid? {
        return Invalid(admitted.problem);
      }
    }
    forall key ensures Resolve(r.value, key) == Owner(c.departments, key) {
      TableIsLinearScan(c.departments, r.value, key);
    }
  }

  lemma SameDepartments(table: map<string, string>, entries: seq<(string, string)>)
    requires Lists(table, entries)
    ensures table.Values == DepartmentsOf(entries)
  {
    forall e <- entries ensures e.1 in table.Values {
      assert e.0 in table;
    }
    forall name <- table.Values ensures name in DepartmentsOf(entries) {
      var key :| key in table && table[key] == name;
      var e :| e in entries && e.0 == key;
    }
  }

  /** Some API key leads to this department. */
  ghost predicate IsDepartment(departments: seq<Department>, name: string) {
    exists apiKey :: Owner(departments, apiKey) == Some(name)
  }

  /** Upstream and department of a pair exist: the model has a slot, and a caller can be of the
      department. */
  ghost predicate PairIsUsable(c: AppConfig, key: Key) {
    Pool(c.upstreams, key.model) != [] && IsDepartment(c.departments, key.department)
  }

  /** The departments that API keys lead to have names, without white space around them. */
  lemma OwnersHaveNames(departments: seq<Department>, apiKey: string)
    requires KeysAreSound(departments) && Owner(departments, apiKey).Some?
    ensures var name := Owner(departments, apiKey).value; name != "" && Trimmed(name)
  {
    OwnerIsListed(departments, apiKey);
    var i :| 0 <= i < |departments| && apiKey in departments[i].apiKeys
             && Strip(departments[i].name) == Owner(departments, apiKey).value;
    assert departments[i] in departments;
    StripIsTrimmed(departments[i].name);
  }

  lemma ServedModelsHaveSlots(upstreams: seq<Upstream>, model: string)
    ensures model in ServedModels(upstreams) <==> Pool(upstreams, model) != []
  {
    ServedIffPooled(upstreams, model);
    if Served(upstreams, model) {
      var i :| 0 <= i < |upstreams| && model in upstreams[i].models;
      assert upstreams[i] in upstreams;
    }
    if model in ServedModels(upstreams) {
      var u :| u in upstreams && model in u.models;
      var i :| 0 <= i < |upstreams| && upstreams[i] == u;
    }
  }

  lemma DepartmentsHaveKeys(departments: seq<Department>, table: map<string, string>, name: string)
    requires Lists(table, Entries(departments))
    ensures name in DepartmentsOf(Entries(departments)) <==> IsDepartment(departments, name)
  {
    if name in DepartmentsOf(Entries(departments)) {
      var e :| e in Entries(departments) && e.1 == name;
      TableIsLinearScan(departments, table, e.0);
      assert Owner(departments, e.0) == Some(name);
    }
    if IsDepartment(departments, name) {
      var apiKey :| Owner(departments, apiKey) == Some(name);
      TableIsLinearScan(departments, table, apiKey);
      var e :| e in Entries(departments) && e.0 == apiKey;
    }
  }

  /** What acceptance of the admission lists means for the rest of the configuration. */
  ghost predicate ListsAreUsable(c: AppConfig) {
    && (forall m <- c.admission.globalLimits :: Pool(c.upstreams, m) != [])
    && (forall m <- c.admission.shapeLimits :: Pool(c.upstreams, m) != [])
    && (forall l <- c.admission.departmentLimits :: PairIsUsable(c, l.key))
    && (forall b <- c.admission.tokenBudgets :: PairIsUsable(c, b.key))
  }

  lemma UsableIsSound(c: AppConfig, table: map<string, string>)
    requires Lists(table, Entries(c.departments))
    ensures AdmissionIsSound(c.admission, ServedModels(c.upstreams), DepartmentsOf(Entries(c.departments))) <==>
              ListsAreUsable(c) && PairsDiffer(c.admission)
  {
    forall model ensures model in ServedModels(c.upstreams) <==> Pool(c.upstreams, model) != [] {
      ServedModelsHaveSlots(c.upstreams, model);
    }
    forall name ensures name in DepartmentsOf(Entries(c.departments)) <==> IsDepartment(c.departments, name) {
      DepartmentsHaveKeys(c.departments, table, name);
    }
  }

  function TableOf(entries: seq<(string, string)>): map<string, string> {
    if entries == [] then map[]
    else TableOf(entries[..|entries| - 1])[entries[|entries| - 1].0 := entries[|entries| - 1].1]
  }

  lemma {:induction false} TableLists(entries: seq<(string, string)>)
    requires KeysDiffer(entries)
    ensures Lists(TableOf(entries), entries)
  {
    if entries != [] {
      var before, last := entries[..|entries| - 1], entries[|entries| - 1];
      TableLists(before);
      assert before + [(last.0, last.1)] + [] == entries == before + [last];
      if last.0 in TableOf(before) {
        ListedTwice(TableOf(before), before, last.0, last.1, []);
        assert false;
      }
      ListOneMore(TableOf(before), before, last.0, last.1);
    }
  }

  /** A configuration is accepted exactly when upstream names differ, API keys are sound, and either
      admission control is off or every model it mentions has an upstream, every department it mentions
      can be reached by an API key, and no pair is listed twice. */
  lemma AcceptedIff(c: AppConfig)
    ensures ConfigIsSound(c) <==>
              && Distinct(UpstreamNames(c.upstreams)) && KeysAreSound(c.departments)
              && (c.admission.enabled ==> ListsAreUsable(c) && PairsDiffer(c.admission))
  {
    if KeysAreSound(c.departments) {
      TableLists(Entries(c.departments));
      UsableIsSound(c, TableOf(Entries(c.departments)));
    }
  }

  /** A validated, enabled admission section has the unique keys that isolation between
      departments asks for, and its scans are lookups. */
  lemma ValidatedScansAreLookups(
    c: AppConfig, other: seq<DepartmentLimit>, otherBudgets: seq<TokenBudget>, key: Key)
    requires ConfigIsSound(c) && c.admission.enabled
    requires multiset(other) == multiset(c.admission.departmentLimits)
    requires multiset(otherBudgets) == multiset(c.admission.tokenBudgets)
    ensures UniqueKeys(c.admission.departmentLimits)
    ensures LimitOf(c.admission.departmentLimits, key) ==
            (if key in MapOf(other) then Some(MapOf(other)[key]) else None)
    ensures BudgetOf(c.admission.tokenBudgets, key) ==
            (if key in BudgetMap(otherBudgets) then Some(BudgetMap(otherBudgets)[key]) else None)
  {
    BudgetScanIsLookup(c.admission.tokenBudgets, otherBudgets, key);
    var limits := c.admission.departmentLimits;
    forall i, j | 0 <= i < j < |limits| ensures limits[i].key != limits[j].key {
      assert LimitKeys(limits)[i] != LimitKeys(limits)[j];
    }
    ScanIsLookup(limits, other, key);
  }
}
