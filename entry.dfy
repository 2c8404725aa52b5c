/** The actor's entry point: turning the input dictionary into query
    parameters for the scraper and into a predicate over the scraped records,
    and keeping the records the predicate accepts. */
module Entry {
  import opened Common
  import opened PyValues
  import opened Errors
  import opened Condition

  /** The items of the input dictionary, in order. */
  type Args = seq<(string, Value)>

  /** `await Actor.get_input() or {}`: a missing input reads as no items. */
  function InputArgs(input: Option<Args>): Args
  {
    if input.Some? then input.value else []
  }

  /** `args.get(key)`: the value stored under the key, or None. */
  function Lookup(args: Args, key: string): Value
  {
    if args == [] then VNone
    else if args[|args| - 1].0 == key then args[|args| - 1].1
    else Lookup(args[..|args| - 1], key)
  }

  // ---------------------------------------------------------------- parameters

  /** The parameter renaming table. A target of None is used as a key itself. */
  const ParamTransforms: map<string, Option<string>> :=
    map["filter" := Some("term"), "offset" := None, "limit" := None, "sort" := None,
        "order_by" := Some("order"), "is_nsfw" := Some("includeNsfw")]

  /** The parameter dictionary; its keys are strings or None. */
  type Params = map<Option<string>, Value>

  /** The key under which one input item is stored, if it is stored at all:
      items outside the table are dropped, a value is stored under the
      table's target, and None under the item's own key. */
  function Destination(item: (string, Value)): (d: Option<Option<string>>)
    ensures d.None? <==>
      item.0 != "filter" && item.0 != "offset" && item.0 != "limit" && item.0 != "sort" &&
      item.0 != "order_by" && item.0 != "is_nsfw"
    ensures item.1 != VNone && item.0 == "filter" ==> d == Some(Some("term"))
    ensures item.1 != VNone && item.0 == "order_by" ==> d == Some(Some("order"))
    ensures item.1 != VNone && item.0 == "is_nsfw" ==> d == Some(Some("includeNsfw"))
    ensures item.1 != VNone && (item.0 == "offset" || item.0 == "limit" || item.0 == "sort") ==> d == Some(None)
    ensures item.1 == VNone && item.0 in ParamTransforms ==> d == Some(Some(item.0))
  {
    if item.0 !in ParamTransforms then None
    else if item.1 != VNone then Some(ParamTransforms[item.0])
    else Some(Some(item.0))
  }

  /** The parameters after the given items have been processed in order. */
  function BuiltParams(args: Args): Params
  {
    if args == [] then map[]
    else
      var prev := BuiltParams(args[..|args| - 1]);
      var item := args[|args| - 1];
      match Destination(item)
      case None => prev
      case Some(key) => prev[key := item.1]
  }

  /** `build_params`: one pass over the input items, storing each item of the
      table under its destination. */
  method BuildParams(input: Option<Args>) returns (params: Params)
    ensures params == BuiltParams(InputArgs(input))
  {
    var transforms := ParamTransforms;
    var args := InputArgs(input);
    params := map[];
    for i := 0 to |args|
      invariant params == BuiltParams(args[..i])
    {
      var (k, v) := args[i];
      assert args[..i + 1][..i] == args[..i];
      if k in transforms {
        if v != VNone {
          params := params[transforms[k] := v];
        } else {
          params := params[Some(k) := v];
        }
      }
    }
    assert args[..|args|] == args;
  }

  /** A key is present exactly when some item is stored under it, and then
      it holds the value of the last such item. */
  lemma {:induction false} ParamsLookup(args: Args, key: Option<string>)
    ensures key in BuiltParams(args) <==> exists i :: 0 <= i < |args| && Destination(args[i]) == Some(key)
    ensures key in BuiltParams(args) ==>
      exists i :: 0 <= i < |args| && Destination(args[i]) == Some(key) && BuiltParams(args)[key] == args[i].1 &&
        forall j :: i < j < |args| ==> Destination(args[j]) != Some(key)
  {
    if args != [] {
      var init := args[..|args| - 1];
      ParamsLookup(init, key);
      var last := |args| - 1;
      if Destination(args[last]) == Some(key) {
        assert key in BuiltParams(args) && BuiltParams(args)[key] == args[last].1;
      } else {
        assert key in BuiltParams(args) <==> key in BuiltParams(init);
        if key in BuiltParams(args) {
          var i :| 0 <= i < |init| && Destination(init[i]) == Some(key) && BuiltParams(init)[key] == init[i].1 &&
            forall j :: i < j < |init| ==> Destination(init[j]) != Some(key);
          assert args[i] == init[i];
          assert forall j :: i < j < |args| ==> Destination(args[j]) != Some(key) by {
            forall j | i < j < |args|
              ensures Destination(args[j]) != Some(key)
            {
              if j < last {
                assert args[j] == init[j];
              }
            }
          }
        }
        if exists i :: 0 <= i < |args| && Destination(args[i]) == Some(key) {
          var i :| 0 <= i < |args| && Destination(args[i]) == Some(key);
          assert i < last && init[i] == args[i];
        }
      }
    }
  }

  /** `get_results(**params)`: Python refuses a keyword whose name is not a string. */
  function KeywordArguments(params: Params): (r: Result<map<string, Value>, Raised>)
    ensures r.Err? <==> None in params
    ensures r.Err? ==> r.error == PyException("TypeError", "keywords must be strings")
    ensures r.Ok? ==> forall s :: s in r.value <==> Some(s) in params
    ensures r.Ok? ==> forall s :: s in r.value ==> r.value[s] == params[Some(s)]
  {
    if None in params then Err(PyException("TypeError", "keywords must be strings"))
    else Ok(map k | k in params && k.Some? :: k.value := params[k])
  }

  /** An offset, limit or sort given with a value ends up under the key None,
      so the call to `get_results` fails. */
  lemma PagingArgumentBreaksCall(args: Args, i: int)
    requires 0 <= i < |args|
    requires args[i].0 == "offset" || args[i].0 == "limit" || args[i].0 == "sort"
    requires args[i].1 != VNone
    ensures KeywordArguments(BuiltParams(args)).Err?
  {
    assert Destination(args[i]) == Some(None);
    ParamsLookup(args, None);
  }

  /** Only the table's keys survive, renamed when they carry a value. */
  lemma ParamsExample()
    ensures BuiltParams([("filter", VStr("pepe")), ("order_by", VNone), ("min_mkt_cap", VInt(5))]) ==
      map[Some("term") := VStr("pepe"), Some("order_by") := VNone]
  {
    var args := [("filter", VStr("pepe")), ("order_by", VNone), ("min_mkt_cap", VInt(5))];
    assert args[..2][..1] == [("filter", VStr("pepe"))];
    assert BuiltParams(args[..2][..1]) == map[Some("term") := VStr("pepe")];
    assert BuiltParams(args[..2]) == map[Some("term") := VStr("pepe"), Some("order_by") := VNone];
  }

  // ------------------------------------------------------------------- filters

  predicate StartsWith(s: string, prefix: string)
  {
    |prefix| <= |s| && s[..|prefix|] == prefix
  }

  /** The field renaming table; the market-cap bounds read the USD field when
      `is_mkt_cap_usd` is truthy. */
  function FilterTransform(usd: bool): map<string, string>
  {
    var cap := if usd then "market_cap_usd" else "market_cap";
    map["is_graduated" := "complete", "has_king_of_the_hill" := "king_of_the_hill_timestamp",
        "min_mkt_cap" := cap, "max_mkt_cap" := cap]
  }

  /** The field a filter argument constrains. */
  function FilterField(key: string, usd: bool): (f: string)
    ensures key == "is_graduated" ==> f == "complete"
    ensures key == "has_king_of_the_hill" ==> f == "king_of_the_hill_timestamp"
    ensures key == "min_mkt_cap" || key == "max_mkt_cap" ==>
      (f == "market_cap_usd" <==> usd) && (f == "market_cap" <==> !usd)
    ensures key !in {"is_graduated", "has_king_of_the_hill", "min_mkt_cap", "max_mkt_cap"} ==> f == key
  {
    var transform := FilterTransform(usd);
    if key in transform then transform[key] else key
  }

  /** The operator a filter argument's prefix selects. */
  function FilterOperator(key: string): (op: Operator)
    ensures op == Gte <==> StartsWith(key, "min_")
    ensures op == Lte <==> StartsWith(key, "max_")
    ensures op == NotNull <==> StartsWith(key, "has_")
    ensures op == Eq <==> !StartsWith(key, "min_") && !StartsWith(key, "max_") && !StartsWith(key, "has_")
  {
    if StartsWith(key, "min_") then Gte
    else if StartsWith(key, "max_") then Lte
    else if StartsWith(key, "has_") then NotNull
    else Eq
  }

  /** Whether an input item carries a value. */
  predicate Given(item: (string, Value))
  {
    item.1 != VNone
  }

  /** The condition one input item contributes. */
  function FilterLeaf(item: (string, Value), usd: bool): Predicate
  {
    Leaf(Name(FilterField(item.0, usd)), FilterOperator(item.0), item.1)
  }

  /** The conditions of the given items, in input order. */
  function FilterLeaves(args: Args, usd: bool): seq<Predicate>
  {
    if args == [] then []
    else
      var prev := FilterLeaves(args[..|args| - 1], usd);
      var item := args[|args| - 1];
      if Given(item) then prev + [FilterLeaf(item, usd)] else prev
  }

  /** `Const(true) & c1 & ... & cn`, grouped to the left. */
  function Chain(leaves: seq<Predicate>): Predicate
  {
    if leaves == [] then Constant(true)
    else AndWith(Chain(leaves[..|leaves| - 1]), leaves[|leaves| - 1])
  }

  /** The predicate `build_filters` returns for the given input items. */
  function Filters(args: Args): Predicate
  {
    Chain(FilterLeaves(args, UsdCap(args)))
  }

  /** `args.get("is_mkt_cap_usd")` is truthy. */
  predicate UsdCap(args: Args)
  {
    Truthy(Lookup(args, "is_mkt_cap_usd"))
  }

  /** `build_filters`: starting from the constant true, every item with a value
      is and-ed on as a condition on its field, with the operator its prefix selects. */
  method BuildFilters(input: Option<Args>) returns (conditions: Predicate)
    ensures conditions == Filters(InputArgs(input))
  {
    var args := InputArgs(input);
    var usd := UsdCap(args);
    var transform := FilterTransform(usd);
    conditions := Constant(true);
    for i := 0 to |args|
      invariant conditions == Chain(FilterLeaves(args[..i], usd))
    {
      var (key, value) := args[i];
      assert args[..i + 1][..i] == args[..i];
      if value == VNone {
        continue;
      }
      var field := if key in transform then transform[key] else key;
      var operator := FilterOperator(key);
      var condition := MakeCondition(Name(field), operator, value);
      assert condition.Ok?;
      conditions := AndWith(conditions, condition.value);
    }
    assert args[..|args|] == args;
  }

  /** The chain holds exactly when every condition holds; it fails with the
      first failing condition's error; with no conditions it is true. */
  lemma {:induction false} ChainEvaluates(leaves: seq<Predicate>, rec: Record)
    ensures leaves == [] ==> Evaluate(Chain(leaves), rec) == Ok(true)
    ensures Evaluate(Chain(leaves), rec).Ok? <==> forall i :: 0 <= i < |leaves| ==> Evaluate(leaves[i], rec).Ok?
    ensures Evaluate(Chain(leaves), rec).Ok? ==>
      (Evaluate(Chain(leaves), rec).value <==> forall i :: 0 <= i < |leaves| ==> Evaluate(leaves[i], rec).value)
    ensures Evaluate(Chain(leaves), rec).Err? ==>
      exists k :: 0 <= k < |leaves| && Evaluate(leaves[k], rec) == Evaluate(Chain(leaves), rec) &&
        forall i :: 0 <= i < k ==> Evaluate(leaves[i], rec).Ok?
  {
    if leaves != [] {
      var init := leaves[..|leaves| - 1];
      var last := leaves[|leaves| - 1];
      ChainEvaluates(init, rec);
      AndSemantics(Chain(init), last, rec);
      assert forall i :: 0 <= i < |init| ==> init[i] == leaves[i];
    }
  }

  /** The conditions are those of the items with a value, one each, in input order. */
  lemma {:induction false} FilterLeavesGiven(args: Args, usd: bool)
    ensures |FilterLeaves(args, usd)| == |Filter(args, Given)|
    ensures forall i :: 0 <= i < |FilterLeaves(args, usd)| ==>
      FilterLeaves(args, usd)[i] == FilterLeaf(Filter(args, Given)[i], usd)
  {
    if args != [] {
      var init := args[..|args| - 1];
      var item := args[|args| - 1];
      FilterLeavesGiven(init, usd);
      assert init + [item] == args;
      FilterSnoc(init, item, Given);
    }
  }

  /** A record without the field of some given item makes the evaluation
      fail: the predicate never treats a missing field as a mismatch. */
  lemma MissingFieldFails(args: Args, i: int, rec: Record)
    requires 0 <= i < |args| && Given(args[i])
    requires FilterField(args[i].0, UsdCap(args)) !in rec
    ensures Evaluate(Filters(args), rec).Err?
  {
    var usd := UsdCap(args);
    var leaves := FilterLeaves(args, usd);
    var given := Filter(args, Given);
    FilterMembers(args, Given, args[i]);
    var j :| 0 <= j < |given| && given[j] == args[i];
    FilterLeavesGiven(args, usd);
    assert leaves[j] == FilterLeaf(args[i], usd);
    assert Evaluate(leaves[j], rec).Err?;
    ChainEvaluates(leaves, rec);
  }

  /** With no items the predicate accepts every record. */
  lemma NoInputAcceptsAll(rec: Record)
    ensures Evaluate(Filters([]), rec) == Ok(true)
  {
    ChainEvaluates([], rec);
  }

  /** `is_graduated` is compared for plain equality: the value "both" is not
      special, and rejects every record whose `complete` is a boolean. */
  lemma GraduatedBothRejects(rec: Record)
    requires "complete" in rec && rec["complete"].VBool?
    ensures Evaluate(Filters([("is_graduated", VStr("both"))]), rec) == Ok(false)
  {
    var leaf := Leaf(Name("complete"), Eq, VStr("both"));
    GraduatedFilter(VStr("both"));
    assert !PyEq(rec["complete"], VStr("both"));
    assert Evaluate(leaf, rec) == Ok(false);
    AndSemantics(Constant(true), leaf, rec);
  }

  /** `is_graduated` alone becomes an equality test on `complete`. */
  lemma GraduatedFilter(v: Value)
    requires v != VNone
    ensures Filters([("is_graduated", v)]) == AndWith(Constant(true), Leaf(Name("complete"), Eq, v))
  {
    var args := [("is_graduated", v)];
    SingleItemFilters(args);
    assert FilterOperator("is_graduated") == Eq by {
      assert "is_graduated"[..4] == "is_g";
    }
  }

  /** A `has_` argument asks for a value whatever it is set to, False included. */
  lemma HasFalseStillRequiresField(rec: Record)
    requires "king_of_the_hill_timestamp" in rec && rec["king_of_the_hill_timestamp"] == VNone
    ensures Evaluate(Filters([("has_king_of_the_hill", VBool(false))]), rec) == Ok(false)
  {
    var leaf := Leaf(Name("king_of_the_hill_timestamp"), NotNull, VBool(false));
    KingOfTheHillFilter(VBool(false));
    assert Evaluate(leaf, rec) == Ok(false);
    AndSemantics(Constant(true), leaf, rec);
  }

  /** `has_king_of_the_hill` alone becomes a presence test on the timestamp. */
  lemma KingOfTheHillFilter(v: Value)
    requires v != VNone
    ensures Filters([("has_king_of_the_hill", v)]) ==
      AndWith(Constant(true), Leaf(Name("king_of_the_hill_timestamp"), NotNull, v))
  {
    var args := [("has_king_of_the_hill", v)];
    SingleItemFilters(args);
    assert FilterOperator("has_king_of_the_hill") == NotNull by {
      assert "has_king_of_the_hill"[..4] == "has_";
    }
  }

  /** One item with a value, other than `is_mkt_cap_usd`, gives `Const(true) & c`. */
  lemma SingleItemFilters(args: Args)
    requires |args| == 1 && args[0].0 != "is_mkt_cap_usd" && args[0].1 != VNone
    ensures Filters(args) == AndWith(Constant(true), FilterLeaf(args[0], false))
  {
    var leaf := FilterLeaf(args[0], false);
    assert args[..0] == [];
    assert Lookup(args, "is_mkt_cap_usd") == VNone;
    assert FilterLeaves(args[..0], false) == [];
    assert FilterLeaves(args, false) == [leaf];
    assert [leaf][..0] == [];
    assert Chain([leaf]) == AndWith(Chain([]), leaf);
  }

  // ----------------------------------------------------------------- selection

  /** Whether a record is accepted without error. */
  function Holds(p: Predicate): Record -> bool
  {
    rec => Evaluate(p, rec) == Ok(true)
  }

  /** `filter(conditions.evaluate, results)`, drained: the records the predicate
      accepts, in order; an evaluation that raises ends the whole step. */
  function FilterRecords(p: Predicate, records: seq<Record>): (r: Result<seq<Record>, ConditionError>)
    ensures r.Ok? <==> forall i :: 0 <= i < |records| ==> Evaluate(p, records[i]).Ok?
    ensures r.Ok? ==> r.value == Filter(records, Holds(p))
    ensures r.Err? ==>
      exists k :: 0 <= k < |records| && Evaluate(p, records[k]) == Err(r.error) &&
        forall i :: 0 <= i < k ==> Evaluate(p, records[i]).Ok?
  {
    if records == [] then Ok([])
    else
      var keep :- Evaluate(p, records[0]);
      var rest :- FilterRecords(p, records[1..]);
      Ok(if keep then [records[0]] + rest else rest)
  }

  /** The selected records are exactly the fetched ones the built predicate
      accepts, which are those satisfying the condition of every given item,
      and they keep their fetched order. */
  lemma SelectedRecords(args: Args, records: seq<Record>, rec: Record)
    requires FilterRecords(Filters(args), records).Ok?
    ensures Subseq(FilterRecords(Filters(args), records).value, records)
    ensures rec in FilterRecords(Filters(args), records).value <==>
      rec in records && MeetsEvery(FilterLeaves(args, UsdCap(args)), rec)
  {
    var p := Filters(args);
    FilterMembers(records, Holds(p), rec);
    assert Holds(p)(rec) <==> Evaluate(p, rec) == Ok(true);
    ChainHolds(FilterLeaves(args, UsdCap(args)), rec);
  }

  /** Every condition accepts the record. */
  predicate MeetsEvery(leaves: seq<Predicate>, rec: Record)
  {
    forall i :: 0 <= i < |leaves| ==> Evaluate(leaves[i], rec) == Ok(true)
  }

  /** The chain accepts a record exactly when every condition accepts it. */
  lemma ChainHolds(leaves: seq<Predicate>, rec: Record)
    ensures Evaluate(Chain(leaves), rec) == Ok(true) <==> MeetsEvery(leaves, rec)
  {
    ChainEvaluates(leaves, rec);
    if MeetsEvery(leaves, rec) {
      assert Evaluate(Chain(leaves), rec).Ok?;
    }
  }
}
