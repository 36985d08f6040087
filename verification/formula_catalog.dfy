/**
 * FormulaService: a catalog of named formulas kept in two maps, the template
 * texts (`formulaTemplates`) and their compiled forms (`formulaCache`).
 *
 * The expression engine itself lies outside the model. Compiling is a
 * function-valued parameter `compile` that yields the compiled form of a text,
 * or None where the engine would throw; executing a compiled form against a
 * variable environment is a parameter `execute` that yields a value or the
 * message of the exception it would throw. The compiled type C, environment
 * type E and value type V are left open.
 */
module FormulaCatalog {
  import opened Results
  import DecimalText

  /** The exceptions the service lets escape, by cause. */
  datatype CatalogError =
    | FormulaNotFound(name: string)   // IllegalArgumentException: no compiled formula by that name
    | CompileFailed(text: string)     // the engine refused to compile the text
    | ExecutionFailed(message: string) // the engine threw while executing

  /** The service's two maps. */
  datatype Catalog<C> = Catalog(templates: map<string, string>, cache: map<string, C>)

  /** The state after a mutating call, with what the call returned or threw. */
  datatype Update<C> = Update(catalog: Catalog<C>, outcome: Result<(), CatalogError>)

  /** Every compiled formula has a template under the same name. */
  predicate CacheWithinTemplates<C>(c: Catalog<C>) {
    c.cache.Keys <= c.templates.Keys
  }

  /** Every compiled formula is the compiled form of the template currently listed under its
      name, so invoking a name runs the text that is listed for it. */
  ghost predicate Coherent<C>(c: Catalog<C>, compile: string -> Option<C>) {
    && CacheWithinTemplates(c)
    && forall n :: n in c.cache ==> compile(c.templates[n]) == Some(c.cache[n])
  }

  /** The ten templates `init` installs. */
  const DefaultTemplates: map<string, string> := map[
    "discount" := "price * (1 - rate)",
    "tax" := "amount * (1 + taxRate)",
    "total_price" := "price * quantity",
    "final_price" := "(price * quantity * (1 - discount) + shipping) * (1 + tax)",
    "compound_interest" := "principal * math.pow(1 + rate, periods)",
    "bmi" := "weight / math.pow(height / 100, 2)",
    "age_from_year" := "2024 - birthYear",
    "circle_area" := "3.141592653589793 * math.pow(radius, 2)",
    "rectangle_area" := "length * width",
    "triangle_area" := "base * height / 2"
  ]

  /** The pre-compilation loop of `init`: every template is compiled in turn, in the map's
      iteration order `order`; a text that fails to compile is skipped and the loop goes on. */
  method PrecompileAll<C>(templates: map<string, string>, order: seq<string>, compile: string -> Option<C>)
    returns (cache: map<string, C>)
    requires forall n :: n in order <==> n in templates
    ensures forall n :: n in cache <==> n in templates && compile(templates[n]).Some?
    ensures forall n :: n in cache ==> compile(templates[n]) == Some(cache[n])
  {
    cache := map[];
    var i := 0;
    while i < |order|
      invariant 0 <= i <= |order|
      invariant forall n :: n in cache <==> n in order[..i] && compile(templates[n]).Some?
      invariant forall n :: n in cache ==> compile(templates[n]) == Some(cache[n])
    {
      var name := order[i];
      var compiled := compile(templates[name]);
      if compiled.Some? {
        cache := cache[name := compiled.value];
      }
      assert order[..i + 1] == order[..i] + [name];
      i := i + 1;
    }
    assert order[..|order|] == order;
  }

  /** `init` on a fresh service: list the ten default templates, then pre-compile them. A name
      ends up compiled exactly when its text compiles; one whose text fails keeps its template. */
  method Init<C>(compile: string -> Option<C>, order: seq<string>) returns (c: Catalog<C>)
    requires forall n :: n in order <==> n in DefaultTemplates
    ensures c.templates == DefaultTemplates
    ensures forall n :: n in c.cache <==> n in DefaultTemplates && compile(DefaultTemplates[n]).Some?
    ensures Coherent(c, compile)
  {
    var cache := PrecompileAll(DefaultTemplates, order, compile);
    c := Catalog(DefaultTemplates, cache);
  }

  /** `calculateByFormula(name, params)`: run the compiled form cached under name; a name
      without one fails, even if its template is listed. */
  function CalculateByFormula<C, E, V>(c: Catalog<C>, name: string, params: E,
                                       execute: (C, E) -> Result<V, string>): (r: Result<V, CatalogError>)
    ensures r == Failure(FormulaNotFound(name)) <==> name !in c.cache
    ensures name in c.cache ==> match execute(c.cache[name], params)
                                case Success(v) => r == Success(v)
                                case Failure(m) => r == Failure(ExecutionFailed(m))
  {
    if name !in c.cache then Failure(FormulaNotFound(name))
    else match execute(c.cache[name], params)
      case Success(v) => Success(v)
      case Failure(m) => Failure(ExecutionFailed(m))
  }

  /** `getAllFormulas()`: a copy of the template map. Being a value, the copy shares nothing with
      the catalog. */
  function GetAllFormulas<C>(c: Catalog<C>): (listing: map<string, string>)
    ensures listing.Keys == c.templates.Keys
    ensures forall n :: n in listing ==> listing[n] == c.templates[n]
  {
    c.templates
  }

  /** `addFormula(name, text)`: the template is stored first, then the text is compiled. On
      success the compiled form replaces any earlier one; on failure the call throws, leaving the
      new text listed and the earlier compiled form, if any, in place. */
  function AddFormula<C>(c: Catalog<C>, name: string, text: string, compile: string -> Option<C>): (u: Update<C>)
    ensures u.catalog.templates == c.templates[name := text]
    ensures u.outcome.Success? <==> compile(text).Some?
    ensures u.outcome.Failure? ==> u.outcome.error == CompileFailed(text)
    ensures compile(text).Some? ==> u.catalog.cache == c.cache[name := compile(text).value]
    ensures compile(text).None? ==> u.catalog.cache == c.cache
  {
    var templates := c.templates[name := text];
    match compile(text)
    case Some(compiled) => Update(Catalog(templates, c.cache[name := compiled]), Success(()))
    case None => Update(Catalog(templates, c.cache), Failure(CompileFailed(text)))
  }

  /** `removeFormula(name)`: drop the name from both maps. */
  function RemoveFormula<C>(c: Catalog<C>, name: string): (c': Catalog<C>)
    ensures name !in c'.templates && name !in c'.cache
    ensures forall n :: n != name ==> (n in c'.templates <==> n in c.templates)
    ensures forall n :: n != name ==> (n in c'.cache <==> n in c.cache)
    ensures forall n :: n in c'.templates ==> c'.templates[n] == c.templates[n]
    ensures forall n :: n in c'.cache ==> c'.cache[n] == c.cache[n]
  {
    Catalog(c.templates - {name}, c.cache - {name})
  }

  /** `validateFormula(text)`: whether the text compiles. It takes no catalog, so neither map
      can change; its answer is the outcome any catalog would see when adding the text under any
      name. */
  function ValidateFormula<C(!new)>(text: string, compile: string -> Option<C>): (valid: bool)
    ensures forall c: Catalog<C>, name :: valid <==> AddFormula(c, name, text, compile).outcome.Success?
  {
    compile(text).Some?
  }

  /** The key `"result_" + i` under which a batch stores its i-th result. ResultKeyDecodes
      states what it means: `ResultIndex` reads the index back. */
  function ResultKey(i: nat): string
  {
    ResultPrefix + DecimalText.NatToString(i)
  }

  const ResultPrefix: string := "result_"

  /** The index a batch key names: the digits after the `result_` prefix, if the key has that
      form. */
  function ResultIndex(key: string): Option<nat> {
    if |key| > |ResultPrefix| && key[..|ResultPrefix|] == ResultPrefix
       && DecimalText.AllDigits(key[|ResultPrefix|..])
    then Some(DecimalText.ParseDigits(key[|ResultPrefix|..]))
    else None
  }

  /** Reading a batch key back gives the index it was made from. */
  lemma ResultKeyDecodes(i: nat)
    ensures ResultIndex(ResultKey(i)) == Some(i)
  {
    DecimalText.ParseNatToString(i);
    assert ResultKey(i)[|ResultPrefix|..] == DecimalText.NatToString(i);
  }

  /** Distinct indices give distinct keys. */
  lemma ResultKeyInjective(i: nat, j: nat)
    requires i != j
    ensures ResultKey(i) != ResultKey(j)
  {
    ResultKeyDecodes(i);
    ResultKeyDecodes(j);
  }

  /** The keys `result_0` .. `result_{k-1}`. */
  function ResultKeys(k: nat): set<string> {
    if k == 0 then {} else ResultKeys(k - 1) + {ResultKey(k - 1)}
  }

  /** The first k keys are exactly the keys of the indices below k, and there are k of them. */
  lemma {:induction false} ResultKeysCount(k: nat)
    ensures |ResultKeys(k)| == k
    ensures forall j :: 0 <= j < k ==> ResultKey(j) in ResultKeys(k)
    ensures forall m: nat :: m >= k ==> ResultKey(m) !in ResultKeys(k)
  {
    if k > 0 {
      ResultKeysCount(k - 1);
      var last := ResultKey(k - 1);
      assert last !in ResultKeys(k - 1);
      assert ResultKeys(k) == ResultKeys(k - 1) + {last};
      assert |ResultKeys(k)| == k;
      forall m: nat | m >= k
        ensures ResultKey(m) !in ResultKeys(k)
      {
        ResultKeyInjective(m, k - 1);
      }
    }
  }

  /** The first i environments all executed without throwing. */
  ghost predicate PrefixSucceeds<C, E, V>(compiled: C, paramsList: seq<E>, i: nat, execute: (C, E) -> Result<V, string>)
    requires i <= |paramsList|
  {
    forall j :: 0 <= j < i ==> execute(compiled, paramsList[j]).Success?
  }

  /** `results` holds exactly the values of the first i executions, each under its key. */
  ghost predicate HoldsPrefixResults<C, E, V>(results: map<string, V>, compiled: C, paramsList: seq<E>, i: nat,
                                              execute: (C, E) -> Result<V, string>)
    requires i <= |paramsList|
  {
    && PrefixSucceeds(compiled, paramsList, i, execute)
    && results.Keys == ResultKeys(i)
    && forall j :: 0 <= j < i ==>
         ResultKey(j) in results && results[ResultKey(j)] == execute(compiled, paramsList[j]).value
  }

  /** Storing the next successful value extends the prefix by one. */
  lemma BatchStep<C, E, V>(results: map<string, V>, compiled: C, paramsList: seq<E>, i: nat,
                           execute: (C, E) -> Result<V, string>)
    requires i < |paramsList|
    requires HoldsPrefixResults(results, compiled, paramsList, i, execute)
    requires execute(compiled, paramsList[i]).Success?
    ensures HoldsPrefixResults(results[ResultKey(i) := execute(compiled, paramsList[i]).value],
                               compiled, paramsList, i + 1, execute)
  {
    var results' := results[ResultKey(i) := execute(compiled, paramsList[i]).value];
    ResultKeysCount(i);
    forall j | 0 <= j < i
      ensures results'[ResultKey(j)] == results[ResultKey(j)]
    {
      assert ResultKey(j) in ResultKeys(i);
    }
  }

  /** `batchCalculate(name, paramsList)`: fails before evaluating anything when name has no
      compiled form; otherwise runs it on each environment in turn, stopping at the first that
      throws, and maps `result_i` to the i-th value. */
  method BatchCalculate<C, E, V>(c: Catalog<C>, name: string, paramsList: seq<E>,
                                 execute: (C, E) -> Result<V, string>)
    returns (r: Result<map<string, V>, CatalogError>)
    ensures name !in c.cache ==> r == Failure(FormulaNotFound(name))
    ensures name in c.cache && r.Success? ==>
      && r.value.Keys == ResultKeys(|paramsList|)
      && |r.value| == |paramsList|
      && HoldsPrefixResults(r.value, c.cache[name], paramsList, |paramsList|, execute)
    ensures name in c.cache && r.Failure? ==>
      exists j :: 0 <= j < |paramsList|
        && PrefixSucceeds(c.cache[name], paramsList, j, execute)
        && execute(c.cache[name], paramsList[j]).Failure?
        && r == Failure(ExecutionFailed(execute(c.cache[name], paramsList[j]).error))
  {
    if name !in c.cache {
      return Failure(FormulaNotFound(name));
    }
    var compiled := c.cache[name];
    var results: map<string, V> := map[];
    for i := 0 to |paramsList|
      invariant HoldsPrefixResults(results, compiled, paramsList, i, execute)
    {
      var outcome := execute(compiled, paramsList[i]);
      if outcome.Failure? {
        assert PrefixSucceeds(compiled, paramsList, i, execute);
        return Failure(ExecutionFailed(outcome.error));
      }
      BatchStep(results, compiled, paramsList, i, execute);
      results := results[ResultKey(i) := outcome.value];
    }
    assert HoldsPrefixResults(results, compiled, paramsList, |paramsList|, execute);
    ResultKeysCount(|paramsList|);
    return Success(results);
  }

  // ---------------------------------------------------------------------------
  // How the operations relate
  // ---------------------------------------------------------------------------

  /** Adding keeps every compiled name listed, whether or not the text compiles. */
  lemma AddPreservesCacheWithinTemplates<C>(c: Catalog<C>, name: string, text: string, compile: string -> Option<C>)
    requires CacheWithinTemplates(c)
    ensures CacheWithinTemplates(AddFormula(c, name, text, compile).catalog)
  {
  }

  /** Removing keeps every compiled name listed. */
  lemma RemovePreservesCacheWithinTemplates<C>(c: Catalog<C>, name: string)
    requires CacheWithinTemplates(c)
    ensures CacheWithinTemplates(RemoveFormula(c, name))
  {
  }

  /** A successful add keeps the compiled forms in step with the listed texts. */
  lemma AddSuccessPreservesCoherent<C>(c: Catalog<C>, name: string, text: string, compile: string -> Option<C>)
    requires Coherent(c, compile)
    requires compile(text).Some?
    ensures Coherent(AddFormula(c, name, text, compile).catalog, compile)
  {
  }

  /** Removing keeps the compiled forms in step with the listed texts. */
  lemma RemovePreservesCoherent<C>(c: Catalog<C>, name: string, compile: string -> Option<C>)
    requires Coherent(c, compile)
    ensures Coherent(RemoveFormula(c, name), compile)
  {
  }

  /** A failed add over a compiled name breaks that step: the new text is listed while invoking
      the name still runs the old compiled form. */
  lemma FailedAddKeepsStaleForm<C, E, V>(c: Catalog<C>, name: string, text: string, compile: string -> Option<C>,
                                         params: E, execute: (C, E) -> Result<V, string>)
    requires name in c.cache
    requires compile(text).None?
    ensures GetAllFormulas(AddFormula(c, name, text, compile).catalog)[name] == text
    ensures CalculateByFormula(AddFormula(c, name, text, compile).catalog, name, params, execute)
         == CalculateByFormula(c, name, params, execute)
    ensures !Coherent(AddFormula(c, name, text, compile).catalog, compile)
  {
    var c' := AddFormula(c, name, text, compile).catalog;
    assert name in c'.cache && compile(c'.templates[name]) == None;
  }

  /** A failed add of a new name lists it, but invoking it fails as if it did not exist. */
  lemma FailedAddListsUninvokableName<C, E, V>(c: Catalog<C>, name: string, text: string, compile: string -> Option<C>,
                                               params: E, execute: (C, E) -> Result<V, string>)
    requires name !in c.cache
    requires compile(text).None?
    ensures name in GetAllFormulas(AddFormula(c, name, text, compile).catalog)
    ensures CalculateByFormula(AddFormula(c, name, text, compile).catalog, name, params, execute)
         == Failure(FormulaNotFound(name))
  {
  }

  /** After an add the listing is the old listing with the new text, success or not. */
  lemma ListAfterAdd<C>(c: Catalog<C>, name: string, text: string, compile: string -> Option<C>)
    ensures GetAllFormulas(AddFormula(c, name, text, compile).catalog) == GetAllFormulas(c)[name := text]
  {
  }

  /** After a successful add, invoking the name runs the text just added. */
  lemma InvokeAfterAdd<C, E, V>(c: Catalog<C>, name: string, text: string, compile: string -> Option<C>,
                                params: E, execute: (C, E) -> Result<V, string>)
    requires compile(text).Some?
    ensures CalculateByFormula(AddFormula(c, name, text, compile).catalog, name, params, execute)
         == match execute(compile(text).value, params)
            case Success(v) => Success(v)
            case Failure(m) => Failure(ExecutionFailed(m))
  {
  }

  /** Adding does not affect any other name. */
  lemma AddLeavesOthers<C, E, V>(c: Catalog<C>, name: string, text: string, compile: string -> Option<C>,
                                 other: string, params: E, execute: (C, E) -> Result<V, string>)
    requires other != name
    ensures CalculateByFormula(AddFormula(c, name, text, compile).catalog, other, params, execute)
         == CalculateByFormula(c, other, params, execute)
  {
  }

  /** After a removal the name can no longer be invoked, and other names behave as before. */
  lemma InvokeAfterRemove<C, E, V>(c: Catalog<C>, name: string, other: string, params: E,
                                   execute: (C, E) -> Result<V, string>)
    requires other != name
    ensures CalculateByFormula(RemoveFormula(c, name), name, params, execute) == Failure(FormulaNotFound(name))
    ensures CalculateByFormula(RemoveFormula(c, name), other, params, execute)
         == CalculateByFormula(c, other, params, execute)
  {
  }

  /** Removing an absent name changes nothing. */
  lemma RemoveAbsentIsNoOp<C>(c: Catalog<C>, name: string)
    requires name !in c.templates && name !in c.cache
    ensures RemoveFormula(c, name) == c
  {
  }

  /** Removing twice is removing once. */
  lemma RemoveIdempotent<C>(c: Catalog<C>, name: string)
    ensures RemoveFormula(RemoveFormula(c, name), name) == RemoveFormula(c, name)
  {
  }

  /** Removing a name just added to a catalog that did not have it restores the catalog,
      whether the add succeeded or not. */
  lemma RemoveUndoesAdd<C>(c: Catalog<C>, name: string, text: string, compile: string -> Option<C>)
    requires name !in c.templates && name !in c.cache
    ensures RemoveFormula(AddFormula(c, name, text, compile).catalog, name) == c
  {
  }

  /** `validateFormula(text)` answers exactly whether adding that text would succeed. */
  lemma ValidateAgreesWithAdd<C(!new)>(c: Catalog<C>, name: string, text: string, compile: string -> Option<C>)
    ensures ValidateFormula(text, compile) <==> AddFormula(c, name, text, compile).outcome.Success?
  {
  }

  /** After `init`, a default name can be invoked exactly when its text compiled. */
  lemma InvokeAfterInit<C(!new), E, V>(c: Catalog<C>, compile: string -> Option<C>, name: string, params: E,
                                 execute: (C, E) -> Result<V, string>)
    requires c.templates == DefaultTemplates
    requires forall n :: n in c.cache <==> n in DefaultTemplates && compile(DefaultTemplates[n]).Some?
    requires name in DefaultTemplates
    ensures CalculateByFormula(c, name, params, execute) != Failure(FormulaNotFound(name))
        <==> ValidateFormula(DefaultTemplates[name], compile)
  {
  }
}
