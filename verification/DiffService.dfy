/** Diffing two form versions into a rule program (app/services/transforms/diff_service.py). */
module DiffService {
  import opened Prelude
  import opened Forms
  import opened Executor

  type Questions = Dict<Question>

  /** {renamed_from: target key} over the first n target questions; a later claim replaces an earlier one. */
  function RenameIndex(tgt: Questions, n: nat): map<string, string>
    requires tgt.Valid() && n <= |tgt.keys|
  {
    if n == 0 then map[]
    else
      var q := tgt.vals[tgt.keys[n - 1]];
      var before := RenameIndex(tgt, n - 1);
      if q.renamedFrom.Some? then before[q.renamedFrom.value := tgt.keys[n - 1]] else before
  }

  function Renames(tgt: Questions): map<string, string>
    requires tgt.Valid()
  {
    RenameIndex(tgt, |tgt.keys|)
  }

  /** `_option_values` */
  function OptionValues(q: Question): set<string> {
    set v | v in q.options
  }

  predicate OptionsChanged(s: Question, t: Question) {
    OptionValues(s) != {} && OptionValues(t) != {} && OptionValues(s) != OptionValues(t)
  }

  /** Kept values map to themselves, removed ones to null, and a hint of the source question wins. */
  function OptionMapping(s: Question, t: Question): ValueMap {
    map v | v in OptionValues(s) ::
      if v in s.valueMapping then s.valueMapping[v] else if v in OptionValues(t) then Some(v) else None
  }

  /** `_build_coerce_params` */
  function CoerceParams(from: FieldType, to: FieldType): Params {
    NO_PARAMS.(toType := Some(to), format := if from.Text? && to.Date? then "YYYY-MM-DD" else "")
  }

  /** Ids are given when the rows are stored; the position stands for them here. */
  function NewRule(source: Option<string>, target: string, op: Operation, params: Params, order: nat): Rule {
    Rule(order, source, target, op, params, order, false)
  }

  /** The rule for a source question. */
  function SourceRule(src: Questions, tgt: Questions, key: string, order: nat): Rule
    requires tgt.Valid() && key in src.vals
  {
    var renamed := Renames(tgt);
    if key in renamed then NewRule(Some(key), renamed[key], Rename, NO_PARAMS, order)
    else if key !in tgt.vals then NewRule(Some(key), key, Drop, NO_PARAMS, order)
    else
      var s, t := src.vals[key], tgt.vals[key];
      if s.fieldType != t.fieldType then
        NewRule(Some(key), key, CoerceType, CoerceParams(s.fieldType, t.fieldType), order)
      else if OptionsChanged(s, t) then
        NewRule(Some(key), key, MapValues, NO_PARAMS.(mapping := Some(OptionMapping(s, t))), order)
      else NewRule(Some(key), key, Identity, NO_PARAMS, order)
  }

  function SourceRules(src: Questions, tgt: Questions): (rules: seq<Rule>)
    requires src.Valid() && tgt.Valid()
    ensures |rules| == |src.keys|
  {
    seq(|src.keys|, i requires 0 <= i < |src.keys| => SourceRule(src, tgt, src.keys[i], i))
  }

  predicate IsNew(src: Questions, tgt: Questions, key: string)
    requires tgt.Valid()
  {
    key !in src.vals && key !in Renames(tgt).Values
  }

  /** The first n target keys that are neither in the source nor the end of a rename. */
  function NewKeys(src: Questions, tgt: Questions, n: nat): (ks: seq<string>)
    requires tgt.Valid() && n <= |tgt.keys|
    ensures forall k :: k in ks <==> k in tgt.keys[..n] && IsNew(src, tgt, k)
    ensures NoDuplicates(ks)
  {
    if n == 0 then []
    else
      assert tgt.keys[..n] == tgt.keys[..n - 1] + [tgt.keys[n - 1]];
      var before := NewKeys(src, tgt, n - 1);
      if IsNew(src, tgt, tgt.keys[n - 1]) then before + [tgt.keys[n - 1]] else before
  }

  function DefaultRules(keys: seq<string>, first: nat): seq<Rule> {
    seq(|keys|, i requires 0 <= i < |keys| => NewRule(None, keys[i], DefaultValue, NO_PARAMS, first + i))
  }

  /** The generated program. */
  function GeneratedRules(src: Questions, tgt: Questions): seq<Rule>
    requires src.Valid() && tgt.Valid()
  {
    SourceRules(src, tgt) + DefaultRules(NewKeys(src, tgt, |tgt.keys|), |src.keys|)
  }

  /** `generate_rule_set`, from the rename index on. */
  method GenerateRuleSet(src: Questions, tgt: Questions) returns (rules: seq<Rule>)
    requires src.Valid() && tgt.Valid()
    ensures rules == GeneratedRules(src, tgt)
  {
    var renamed := BuildRenameIndex(tgt);
    rules := [];
    var order := 0;
    for i := 0 to |src.keys|
      invariant order == i && rules == SourceRules(src, tgt)[..i]
    {
      var key := src.keys[i];
      var rule;
      if key in renamed {
        rule := NewRule(Some(key), renamed[key], Rename, NO_PARAMS, order);
      } else if key in tgt.vals {
        var s, t := src.vals[key], tgt.vals[key];
        if s.fieldType == t.fieldType {
          if OptionsChanged(s, t) {
            rule := NewRule(Some(key), key, MapValues, NO_PARAMS.(mapping := Some(OptionMapping(s, t))), order);
          } else {
            rule := NewRule(Some(key), key, Identity, NO_PARAMS, order);
          }
        } else {
          rule := NewRule(Some(key), key, CoerceType, CoerceParams(s.fieldType, t.fieldType), order);
        }
      } else {
        rule := NewRule(Some(key), key, Drop, NO_PARAMS, order);
      }
      assert rule == SourceRules(src, tgt)[i];
      rules := rules + [rule];
      order := order + 1;
    }
    rules := AddDefaults(src, tgt, renamed, rules);
  }

  method BuildRenameIndex(tgt: Questions) returns (renamed: map<string, string>)
    requires tgt.Valid()
    ensures renamed == Renames(tgt)
  {
    renamed := map[];
    for i := 0 to |tgt.keys|
      invariant renamed == RenameIndex(tgt, i)
    {
      var q := tgt.vals[tgt.keys[i]];
      if q.renamedFrom.Some? {
        renamed := renamed[q.renamedFrom.value := tgt.keys[i]];
      }
    }
  }

  method AddDefaults(src: Questions, tgt: Questions, renamed: map<string, string>, sourceRules: seq<Rule>)
      returns (rules: seq<Rule>)
    requires src.Valid() && tgt.Valid() && renamed == Renames(tgt)
    requires sourceRules == SourceRules(src, tgt)
    ensures rules == GeneratedRules(src, tgt)
  {
    hide SourceRules, RenameIndex;
    rules := sourceRules;
    var order := |sourceRules|;
    for i := 0 to |tgt.keys|
      invariant order == |src.keys| + |NewKeys(src, tgt, i)|
      invariant rules == sourceRules + DefaultRules(NewKeys(src, tgt, i), |src.keys|)
    {
      var key := tgt.keys[i];
      if key in src.vals || key in renamed.Values {
        continue;
      }
      rules := rules + [NewRule(None, key, DefaultValue, NO_PARAMS, order)];
      order := order + 1;
    }
  }

  /** The value map has exactly the source options. A hint decides what one becomes; without a hint an option that the
      target has as well stays itself, and one that it no longer has is lost. */
  lemma OptionMappingMeans(s: Question, t: Question, v: string)
    ensures v in OptionMapping(s, t) <==> v in s.options
    ensures v in s.options ==>
              OptionMapping(s, t)[v] ==
                if v in s.valueMapping then s.valueMapping[v] else if v in t.options then Some(v) else None
  {
  }
}
