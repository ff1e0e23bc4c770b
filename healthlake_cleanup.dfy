/** The datastore cleanup script: for each resource type in a fixed order
    it searches the datastore, skips entries without an id, shows each
    remaining entry, and either deletes it or only counts it (dry run).
    The HealthLake client is a set of oracles: the search answer of each
    type, the JSON decoder, and the answer of each delete call. */
module HealthLakeCleanup {
  import opened Wrappers
  import opened Text
  import opened JsonData

  /** Observations first, then procedures, patients last, since the others
      refer to them. */
  const ResourceTypes: seq<string> := ["Observation", "Procedure", "Patient"]

  /** The position of a type in the deletion order. */
  function Rank(resourceType: string): nat {
    if resourceType == "Observation" then 0
    else if resourceType == "Procedure" then 1
    else 2
  }

  // ---------------------------------------------------------------------
  // search_all_resources and delete_resource
  // ---------------------------------------------------------------------

  /** `search_all_resources`: `response` is the answer of `search_with_get`
      (Err when it raised; None when it has no ResourceDocument) and `parse`
      is `json.loads` (Err when it raised). Every exception, including the
      AttributeError of `.get` on a document that is not a dict, is caught
      and gives an empty list. */
  function SearchAllResources(response: Result<Option<string>>, parse: string -> Result<Json>): (resources: Json)
    ensures response.Err? || response == Ok(None) ==> resources == JArray([])
  {
    match response
    case Err(_) => JArray([])
    case Ok(None) => JArray([])
    case Ok(Some(document)) =>
      match parse(document)
      case Err(_) => JArray([])
      case Ok(data) => Get(data, "entry", JArray([])).GetOr(JArray([]))
  }

  /** `delete_resource`: true exactly when the client call did not raise. */
  function DeleteResource(call: Result<Json>): bool {
    call.Ok?
  }

  // ---------------------------------------------------------------------
  // One entry
  // ---------------------------------------------------------------------

  /** The entries the loop visits: none after `if not resources: continue`,
      and None when a truthy value other than a list makes `len` or
      `entry.get` raise. */
  function EntriesOf(resources: Json): Option<seq<Json>> {
    if !resources.Truthy() then Some([])
    else if resources.JArray? then Some(resources.items)
    else None
  }

  /** `entry.get('resource', {}).get('id')`: None when the entry or its
      resource is not a dict (the script then raises). */
  function IdOf(entry: Json): Option<Json> {
    match Get(entry, "resource", JObject(map[]))
    case None => None
    case Some(resource) => Get(resource, "id", JNull)
  }

  /** `' '.join(given)` succeeds: a list of strings, a string, or a dict
      (whose keys are strings). */
  predicate Joinable(given: Json) {
    || given.JString?
    || given.JObject?
    || (given.JArray? && forall x :: x in given.items ==> x.JString?)
  }

  /** The patient line can be shown: the first name is a dict whose given
      names can be joined. */
  predicate ShowsPatient(resource: map<string, Json>) {
    var names := if "name" in resource then resource["name"] else JArray([JObject(map[])]);
    match First(names)
    case Some(JObject(name)) => Joinable(if "given" in name then name["given"] else JArray([]))
    case _ => false
  }

  /** The observation or procedure line can be shown: the code is a dict
      whose first coding is a dict. */
  predicate ShowsCode(resource: map<string, Json>) {
    var code := if "code" in resource then resource["code"] else JObject(map[]);
    match Get(code, "coding", JArray([JObject(map[])]))
    case Some(coding) => First(coding).Some? && First(coding).value.JObject?
    case None => false
  }

  /** Showing the resource details does not raise. */
  predicate Shows(resourceType: string, resource: map<string, Json>) {
    if resourceType == "Patient" then ShowsPatient(resource)
    else if resourceType == "Observation" || resourceType == "Procedure" then ShowsCode(resource)
    else true
  }

  /** What the loop does with one entry. */
  datatype Step = Crash | Skip | Visit(id: Json)

  function EntryStep(resourceType: string, entry: Json): Step {
    match IdOf(entry)
    case None => Crash
    case Some(id) =>
      if !id.Truthy() then Skip
      else if !Shows(resourceType, entry.fields["resource"].fields) then Crash
      else Visit(id)
  }

  /** An entry is skipped exactly when its id is missing or falsy, and a
      visited entry carries its own truthy id. */
  lemma EntryStepIds(resourceType: string, entry: Json)
    ensures EntryStep(resourceType, entry) == Skip <==> IdOf(entry).Some? && !IdOf(entry).value.Truthy()
    ensures EntryStep(resourceType, entry).Visit? ==>
      IdOf(entry) == Some(EntryStep(resourceType, entry).id) && EntryStep(resourceType, entry).id.Truthy()
  {
  }

  // ---------------------------------------------------------------------
  // The deletion plan
  // ---------------------------------------------------------------------

  /** A resource the script deletes (or, in a dry run, would delete). */
  datatype Target = Target(resourceType: string, id: Json)

  /** The targets met before the first exception, and whether one was raised. */
  datatype Scan = Scan(targets: seq<Target>, crashed: bool)

  /** The loop over the entries of one type. */
  function ScanEntries(resourceType: string, entries: seq<Json>): Scan {
    if entries == [] then Scan([], false)
    else
      var prior := ScanEntries(resourceType, entries[..|entries| - 1]);
      if prior.crashed then prior
      else match EntryStep(resourceType, entries[|entries| - 1])
        case Crash => Scan(prior.targets, true)
        case Skip => prior
        case Visit(id) => Scan(prior.targets + [Target(resourceType, id)], false)
  }

  /** One type: its search, the emptiness check and its entries. */
  function TypeScan(resourceType: string, resources: Json): Scan {
    match EntriesOf(resources)
    case None => Scan([], true)
    case Some(entries) => ScanEntries(resourceType, entries)
  }

  /** The loop over the resource types, up to the first exception. */
  function PlanOf(types: seq<string>, search: string -> Result<Option<string>>,
                  parse: string -> Result<Json>): Scan
  {
    if types == [] then Scan([], false)
    else
      var prior := PlanOf(types[..|types| - 1], search, parse);
      if prior.crashed then prior
      else
        var t := types[|types| - 1];
        var s := TypeScan(t, SearchAllResources(search(t), parse));
        Scan(prior.targets + s.targets, s.crashed)
  }

  /** The entries of one type that have a truthy id, as targets. */
  function TaggedIds(resourceType: string, entries: seq<Json>): (ts: seq<Target>)
    ensures forall x :: x in ts ==> x.resourceType == resourceType && x.id.Truthy()
  {
    if entries == [] then []
    else
      var prior := TaggedIds(resourceType, entries[..|entries| - 1]);
      match IdOf(entries[|entries| - 1])
      case Some(id) => if id.Truthy() then prior + [Target(resourceType, id)] else prior
      case None => prior
  }

  /** The entries with a truthy id of every type, in the order of `types`. */
  function Found(types: seq<string>, search: string -> Result<Option<string>>,
                 parse: string -> Result<Json>): seq<Target>
  {
    if types == [] then []
    else
      var t := types[|types| - 1];
      Found(types[..|types| - 1], search, parse)
        + TaggedIds(t, EntriesOf(SearchAllResources(search(t), parse)).GetOr([]))
  }

  lemma PrefixExtend<T>(a: seq<T>, b: seq<T>, c: seq<T>)
    requires a <= b
    ensures a <= b + c
  {
    assert (b + c)[..|a|] == b[..|a|];
  }

  lemma PrefixAppend<T>(a: seq<T>, b: seq<T>, c: seq<T>)
    requires b <= c
    ensures a + b <= a + c
  {
    assert (a + c)[..|a + b|] == a + c[..|b|];
  }

  /** Entries without an id are never targets: the targets of one type are
      its entries with a truthy id, in order, up to the first exception,
      and all of them when there is none. */
  lemma {:induction false} ScanSkipsIdless(resourceType: string, entries: seq<Json>)
    ensures var s := ScanEntries(resourceType, entries);
      && s.targets <= TaggedIds(resourceType, entries)
      && (!s.crashed ==> s.targets == TaggedIds(resourceType, entries))
  {
    if entries != [] {
      var init := entries[..|entries| - 1];
      var last := entries[|entries| - 1];
      ScanSkipsIdless(resourceType, init);
      EntryStepIds(resourceType, last);
      var prior := ScanEntries(resourceType, init);
      var ids := TaggedIds(resourceType, init);
      if prior.crashed || EntryStep(resourceType, last).Crash? {
        match IdOf(last)
        case Some(id) =>
          if id.Truthy() {
            PrefixExtend(prior.targets, ids, [Target(resourceType, id)]);
          }
        case None =>
      }
    }
  }

  /** Every target of the whole run is an entry with a truthy id, in the
      type order, up to the first exception; all of them when none is
      raised. */
  lemma {:induction false} PlanSkipsIdless(types: seq<string>, search: string -> Result<Option<string>>,
                                           parse: string -> Result<Json>)
    ensures var p := PlanOf(types, search, parse);
      && p.targets <= Found(types, search, parse)
      && (!p.crashed ==> p.targets == Found(types, search, parse))
  {
    if types != [] {
      var init := types[..|types| - 1];
      var t := types[|types| - 1];
      PlanSkipsIdless(init, search, parse);
      var prior := PlanOf(init, search, parse);
      var entries := EntriesOf(SearchAllResources(search(t), parse)).GetOr([]);
      var ids := TaggedIds(t, entries);
      if prior.crashed {
        PrefixExtend(prior.targets, Found(init, search, parse), ids);
      } else {
        var s := TypeScan(t, SearchAllResources(search(t), parse));
        if EntriesOf(SearchAllResources(search(t), parse)).Some? {
          ScanSkipsIdless(t, entries);
        }
        PrefixAppend(prior.targets, s.targets, ids);
      }
    }
  }

  /** Every target names one of the types searched, and has a truthy id. */
  lemma TargetsWellFormed(types: seq<string>, search: string -> Result<Option<string>>,
                          parse: string -> Result<Json>)
    ensures forall x :: x in PlanOf(types, search, parse).targets ==> x.resourceType in types && x.id.Truthy()
  {
    PlanSkipsIdless(types, search, parse);
    FoundWellFormed(types, search, parse);
  }

  lemma {:induction false} FoundWellFormed(types: seq<string>, search: string -> Result<Option<string>>,
                                           parse: string -> Result<Json>)
    ensures forall x :: x in Found(types, search, parse) ==> x.resourceType in types && x.id.Truthy()
  {
    if types != [] {
      FoundWellFormed(types[..|types| - 1], search, parse);
    }
  }

  /** Deletion follows the type order: every observation target comes
      before every procedure target, and those before every patient. */
  lemma PlanOrdered(search: string -> Result<Option<string>>, parse: string -> Result<Json>)
    ensures var ts := PlanOf(ResourceTypes, search, parse).targets;
      forall i, j :: 0 <= i < j < |ts| ==> Rank(ts[i].resourceType) <= Rank(ts[j].resourceType)
  {
    PlanSkipsIdless(ResourceTypes, search, parse);
    FoundOrdered(3, search, parse);
    assert ResourceTypes[..3] == ResourceTypes;
  }

  lemma {:induction false} FoundOrdered(n: nat, search: string -> Result<Option<string>>,
                                        parse: string -> Result<Json>)
    requires n <= 3
    ensures var ts := Found(ResourceTypes[..n], search, parse);
      && (forall x :: x in ts ==> Rank(x.resourceType) < n)
      && (forall i, j :: 0 <= i < j < |ts| ==> Rank(ts[i].resourceType) <= Rank(ts[j].resourceType))
  {
    if n > 0 {
      FoundOrdered(n - 1, search, parse);
      var types := ResourceTypes[..n];
      assert types[..|types| - 1] == ResourceTypes[..n - 1];
      var t := ResourceTypes[n - 1];
      assert Rank(t) == n - 1;
    }
  }

  /** A search that raised, or came back without a document, contributes no
      target and lets the run go on to the next type. */
  lemma FailedSearchFindsNothing(resourceType: string, response: Result<Option<string>>,
                                 parse: string -> Result<Json>)
    requires response.Err? || response == Ok(None)
    ensures TypeScan(resourceType, SearchAllResources(response, parse)) == Scan([], false)
  {
  }

  // ---------------------------------------------------------------------
  // Counting
  // ---------------------------------------------------------------------

  /** How many of the delete calls for `targets` succeed. */
  function Successes(targets: seq<Target>, delete: (string, Json) -> Result<Json>): nat {
    if targets == [] then 0
    else
      var last := targets[|targets| - 1];
      Successes(targets[..|targets| - 1], delete)
        + (if DeleteResource(delete(last.resourceType, last.id)) then 1 else 0)
  }

  /** The execute-mode total never exceeds the number of targets, and
      reaches it exactly when every delete call succeeds. */
  lemma {:induction false} SuccessesBound(targets: seq<Target>, delete: (string, Json) -> Result<Json>)
    ensures Successes(targets, delete) <= |targets|
    ensures Successes(targets, delete) == |targets| <==>
      forall i :: 0 <= i < |targets| ==> DeleteResource(delete(targets[i].resourceType, targets[i].id))
  {
    if targets != [] {
      var init := targets[..|targets| - 1];
      SuccessesBound(init, delete);
      assert forall i :: 0 <= i < |init| ==> init[i] == targets[i];
    }
  }

  lemma {:induction false} SuccessesAppend(a: seq<Target>, b: seq<Target>, delete: (string, Json) -> Result<Json>)
    ensures Successes(a + b, delete) == Successes(a, delete) + Successes(b, delete)
    decreases |b|
  {
    if b != [] {
      var initB := b[..|b| - 1];
      assert (a + b)[..|a + b| - 1] == a + initB;
      SuccessesAppend(a, initB, delete);
    } else {
      assert a + b == a;
    }
  }

  /** What the run has done for `targets`: a dry run issues no delete and
      counts every target; otherwise every target is deleted, in order, and
      only the successful deletes are counted. */
  ghost predicate Tally(dryRun: bool, delete: (string, Json) -> Result<Json>, targets: seq<Target>,
                        deletes: seq<Target>, total: nat)
  {
    if dryRun then deletes == [] && total == |targets|
    else deletes == targets && total == Successes(targets, delete)
  }

  lemma TallyAppend(dryRun: bool, delete: (string, Json) -> Result<Json>,
                    a: seq<Target>, da: seq<Target>, na: nat, b: seq<Target>, db: seq<Target>, nb: nat)
    requires Tally(dryRun, delete, a, da, na) && Tally(dryRun, delete, b, db, nb)
    ensures Tally(dryRun, delete, a + b, da + db, na + nb)
  {
    SuccessesAppend(a, b, delete);
  }

  /** Once an entry raised, the later entries change nothing. */
  lemma {:induction false} ScanCrashStays(resourceType: string, entries: seq<Json>, n: nat)
    requires n <= |entries| && ScanEntries(resourceType, entries[..n]).crashed
    ensures ScanEntries(resourceType, entries) == ScanEntries(resourceType, entries[..n])
    decreases |entries|
  {
    if |entries| > n {
      var init := entries[..|entries| - 1];
      assert init[..n] == entries[..n];
      ScanCrashStays(resourceType, init, n);
    } else {
      assert entries[..n] == entries;
    }
  }

  /** Once a type raised, the later types change nothing. */
  lemma {:induction false} PlanCrashStays(types: seq<string>, n: nat, search: string -> Result<Option<string>>,
                                          parse: string -> Result<Json>)
    requires n <= |types| && PlanOf(types[..n], search, parse).crashed
    ensures PlanOf(types, search, parse) == PlanOf(types[..n], search, parse)
    decreases |types|
  {
    if |types| > n {
      var init := types[..|types| - 1];
      assert init[..n] == types[..n];
      PlanCrashStays(init, n, search, parse);
    } else {
      assert types[..n] == types;
    }
  }

  /** One more entry: it raises, is skipped, or becomes the next target. */
  lemma ScanNext(resourceType: string, entries: seq<Json>, j: nat)
    requires j < |entries| && !ScanEntries(resourceType, entries[..j]).crashed
    ensures var prior := ScanEntries(resourceType, entries[..j]);
      var next := ScanEntries(resourceType, entries[..j + 1]);
      match EntryStep(resourceType, entries[j])
      case Crash => next == Scan(prior.targets, true)
      case Skip => next == prior
      case Visit(id) => next == Scan(prior.targets + [Target(resourceType, id)], false)
  {
    assert entries[..j + 1][..j] == entries[..j];
  }

  /** One more target: counted in a dry run; otherwise deleted, and counted
      when the delete succeeds. */
  lemma TallyVisit(dryRun: bool, delete: (string, Json) -> Result<Json>, done: seq<Target>,
                   deletes: seq<Target>, total: nat, target: Target)
    requires Tally(dryRun, delete, done, deletes, total)
    ensures Tally(dryRun, delete, done + [target], if dryRun then deletes else deletes + [target],
                  total + (if dryRun || DeleteResource(delete(target.resourceType, target.id)) then 1 else 0))
  {
    assert (done + [target])[..|done|] == done;
  }

  /** The inner loop of `cleanup_datastore` over the entries of one type. */
  method VisitEntries(resourceType: string, entries: seq<Json>, dryRun: bool,
                      delete: (string, Json) -> Result<Json>)
    returns (deletes: seq<Target>, total: nat, crashed: bool)
    ensures crashed == ScanEntries(resourceType, entries).crashed
    ensures Tally(dryRun, delete, ScanEntries(resourceType, entries).targets, deletes, total)
  {
    deletes, total, crashed := [], 0, false;
    var j := 0;
    while j < |entries|
      invariant 0 <= j <= |entries|
      invariant !ScanEntries(resourceType, entries[..j]).crashed
      invariant Tally(dryRun, delete, ScanEntries(resourceType, entries[..j]).targets, deletes, total)
    {
      var step := EntryStep(resourceType, entries[j]);
      ScanNext(resourceType, entries, j);
      if step.Crash? {
        ScanCrashStays(resourceType, entries, j + 1);
        crashed := true;
        return;
      }
      if step.Visit? {
        var target := Target(resourceType, step.id);
        TallyVisit(dryRun, delete, ScanEntries(resourceType, entries[..j]).targets, deletes, total, target);
        if dryRun {
          total := total + 1;
        } else {
          var success := DeleteResource(delete(resourceType, step.id));
          if success {
            total := total + 1;
          }
          deletes := deletes + [target];
        }
      }
      j := j + 1;
    }
    assert entries[..j] == entries;
  }

  /** `cleanup_datastore`: the types in order, each searched, its entries
      visited, and every target deleted (or only counted in a dry run). An
      exception ends the run with the deletes already made. */
  method CleanupDatastore(dryRun: bool, search: string -> Result<Option<string>>,
                          parse: string -> Result<Json>, delete: (string, Json) -> Result<Json>)
    returns (deletes: seq<Target>, totalDeleted: nat, crashed: bool)
    ensures crashed == PlanOf(ResourceTypes, search, parse).crashed
    ensures Tally(dryRun, delete, PlanOf(ResourceTypes, search, parse).targets, deletes, totalDeleted)
  {
    deletes, totalDeleted, crashed := [], 0, false;
    var i := 0;
    while i < |ResourceTypes|
      invariant 0 <= i <= |ResourceTypes|
      invariant !PlanOf(ResourceTypes[..i], search, parse).crashed
      invariant Tally(dryRun, delete, PlanOf(ResourceTypes[..i], search, parse).targets, deletes, totalDeleted)
    {
      var resourceType := ResourceTypes[i];
      assert ResourceTypes[..i + 1][..i] == ResourceTypes[..i];
      var resources := SearchAllResources(search(resourceType), parse);
      var entries := EntriesOf(resources);
      if entries.None? {
        PlanCrashStays(ResourceTypes, i + 1, search, parse);
        crashed := true;
        return;
      }
      var d, n, c := VisitEntries(resourceType, entries.value, dryRun, delete);
      TallyAppend(dryRun, delete, PlanOf(ResourceTypes[..i], search, parse).targets, deletes, totalDeleted,
                  ScanEntries(resourceType, entries.value).targets, d, n);
      deletes, totalDeleted := deletes + d, totalDeleted + n;
      if c {
        PlanCrashStays(ResourceTypes, i + 1, search, parse);
        crashed := true;
        return;
      }
      i := i + 1;
    }
    assert ResourceTypes[..i] == ResourceTypes;
  }

  // ---------------------------------------------------------------------
  // main
  // ---------------------------------------------------------------------

  /** The datastore and mode `main` runs with. */
  datatype Invocation = Invocation(datastoreId: string, dryRun: bool)

  /** `main`'s argument handling: the datastore id is the first argument,
      else the stripped `terraform output` (Err when that call raised, and
      the script exits); the run is a dry run unless "--execute" is among
      the arguments. */
  function ParseArguments(argv: seq<string>, terraformOutput: Result<string>): (r: Option<Invocation>)
    ensures r.None? <==> |argv| <= 1 && terraformOutput.Err?
    ensures r.Some? ==> (r.value.dryRun <==> "--execute" !in argv)
    ensures r.Some? && |argv| > 1 ==> r.value.datastoreId == argv[1]
  {
    var dryRun := "--execute" !in argv;
    if |argv| > 1 then Some(Invocation(argv[1], dryRun))
    else match terraformOutput
      case Err(_) => None
      case Ok(out) => Some(Invocation(Strip(out), dryRun))
  }

  /** Given alone, the flag is read as the datastore id, and the run is not
      a dry run. */
  lemma ExecuteFlagAlone(script: string, terraformOutput: Result<string>)
    ensures ParseArguments([script, "--execute"], terraformOutput) == Some(Invocation("--execute", false))
  {
    assert "--execute" in [script, "--execute"];
  }

  /** `main` end to end; `search`, `parse` and `delete` answer for the
      datastore they are given. */
  method Run(argv: seq<string>, terraformOutput: Result<string>,
             search: string -> string -> Result<Option<string>>, parse: string -> Result<Json>,
             delete: string -> (string, Json) -> Result<Json>)
    returns (exited: bool, deletes: seq<Target>, totalDeleted: nat, crashed: bool)
    ensures exited <==> |argv| <= 1 && terraformOutput.Err?
    ensures exited ==> deletes == [] && totalDeleted == 0 && !crashed
    ensures "--execute" !in argv ==> deletes == []
    ensures !exited ==>
      var inv := ParseArguments(argv, terraformOutput).value;
      var plan := PlanOf(ResourceTypes, search(inv.datastoreId), parse);
      crashed == plan.crashed && Tally(inv.dryRun, delete(inv.datastoreId), plan.targets, deletes, totalDeleted)
  {
    var invocation := ParseArguments(argv, terraformOutput);
    if invocation.None? {
      return true, [], 0, false;
    }
    var inv := invocation.value;
    exited := false;
    deletes, totalDeleted, crashed := CleanupDatastore(inv.dryRun, search(inv.datastoreId), parse, delete(inv.datastoreId));
  }
}
