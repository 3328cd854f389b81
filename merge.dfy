/**
 * The engine options of src/plugin.ts:24-32: ramda's
 * `mergeDeepLeft(baseline, ajvOptions)`.
 *
 * ramda merges the own keys of two objects; where both sides hold a plain
 * object under the same key it recurses, and on every other conflict the
 * LEFT value is kept whole. Keys present on one side only keep that side's
 * value. Arrays, functions, numbers, strings, booleans and null are not
 * plain objects, so they are leaves; class instances, which ramda does
 * treat as plain objects, are leaves here too.
 */
module MergeDeep {
  import opened Wrappers

  /** A value that is not a plain object. */
  datatype Scalar = Bool(b: bool) | Num(n: int) | Str(s: string) | Null | Other(tag: string)

  /** An option value: a leaf, or a plain object with its own keys. */
  datatype Opt = Leaf(value: Scalar) | Obj(fields: map<string, Opt>)

  /** The own keys of a top-level options object. */
  type Fields = map<string, Opt>

  /** The fixed baseline `{code: {source: true, optimize: 1}}`. */
  const Baseline: Fields :=
    map["code" := Obj(map["source" := Leaf(Bool(true)), "optimize" := Leaf(Num(1))])]

  /** `mergeDeepLeft(l, r)` on two values: objects merge key by key, anything else keeps `l`. */
  function Merge(l: Opt, r: Opt): (m: Opt)
    ensures m.Obj? <==> l.Obj?
    // unless both sides are plain objects, the left value is kept whole
    ensures !(l.Obj? && r.Obj?) ==> m == l
    ensures l.Obj? && r.Obj? ==> m.fields.Keys == l.fields.Keys + r.fields.Keys
    ensures l.Obj? && r.Obj? ==> forall k :: k in r.fields && k !in l.fields ==> m.fields[k] == r.fields[k]
    ensures l.Obj? && r.Obj? ==> forall k :: k in l.fields && k !in r.fields ==> m.fields[k] == l.fields[k]
  {
    match l
    case Leaf(_) => l
    case Obj(lf) =>
      match r
      case Leaf(_) => l
      case Obj(rf) =>
        Obj(map k | k in lf.Keys + rf.Keys ::
              if k in lf && k in rf then Merge(lf[k], rf[k])
              else if k in lf then lf[k]
              else rf[k])
  }

  /** `mergeDeepLeft(l, r)` on two options objects. */
  function MergeDeepLeft(l: Fields, r: Fields): (m: Fields)
    ensures m.Keys == l.Keys + r.Keys
  {
    Merge(Obj(l), Obj(r)).fields
  }

  /** The value reached from `o` by following the keys of `path`. */
  function Get(o: Opt, path: seq<string>): Option<Opt>
    decreases path
  {
    if path == [] then Some(o)
    else match o
      case Leaf(_) => None
      case Obj(f) => if path[0] in f then Get(f[path[0]], path[1..]) else None
  }

  /** The left side wins: every leaf of `l`, at any depth, is in the merge unchanged. */
  lemma {:induction false} LeftLeafWins(l: Opt, r: Opt, path: seq<string>)
    requires Get(l, path).Some? && Get(l, path).value.Leaf?
    ensures Get(Merge(l, r), path) == Get(l, path)
    decreases path
  {
    if path != [] {
      var k := path[0];
      var m := Merge(l, r);
      if r.Obj? && k in r.fields {
        LeftLeafWins(l.fields[k], r.fields[k], path[1..]);
      } else {
        assert m.fields[k] == l.fields[k];
      }
    }
  }

  /**
   * `path` leads out of `l` through a missing key: every proper prefix of it
   * reaches a plain object in `l`, and the last step or an earlier one finds
   * no key.
   */
  predicate LeavesThroughMissingKey(l: Opt, path: seq<string>)
    decreases path
  {
    path != [] && l.Obj? &&
    (path[0] !in l.fields || LeavesThroughMissingKey(l.fields[path[0]], path[1..]))
  }

  /** The right side survives wherever the left side has nothing: such values of `r`, at any depth, are in the merge unchanged. */
  lemma {:induction false} RightSurvivesWhereLeftIsAbsent(l: Opt, r: Opt, path: seq<string>)
    requires Get(r, path).Some?
    requires LeavesThroughMissingKey(l, path)
    ensures Get(Merge(l, r), path) == Get(r, path)
    decreases path
  {
    var k := path[0];
    if k in l.fields {
      RightSurvivesWhereLeftIsAbsent(l.fields[k], r.fields[k], path[1..]);
    }
  }

  /** Whatever the caller passes, the merged options have `code.source == true` and `code.optimize == 1`. */
  lemma BaselineWins(caller: Fields)
    ensures var m := MergeDeepLeft(Baseline, caller);
            && "code" in m && m["code"].Obj?
            && "source" in m["code"].fields && m["code"].fields["source"] == Leaf(Bool(true))
            && "optimize" in m["code"].fields && m["code"].fields["optimize"] == Leaf(Num(1))
  {
    LeftLeafWins(Obj(Baseline), Obj(caller), ["code", "source"]);
    LeftLeafWins(Obj(Baseline), Obj(caller), ["code", "optimize"]);
  }

  /**
   * Every caller value outside the baseline's leaves survives unchanged: any
   * top-level key other than `code`, and, when the caller's `code` is a plain
   * object, every key inside it other than `source` and `optimize`.
   */
  lemma CallerValuesSurvive(caller: Fields, path: seq<string>)
    requires Get(Obj(caller), path).Some?
    requires path != []
    requires path[0] != "code" || (|path| >= 2 && path[1] != "source" && path[1] != "optimize")
    ensures Get(Obj(MergeDeepLeft(Baseline, caller)), path) == Get(Obj(caller), path)
  {
    if path[0] == "code" {
      assert LeavesThroughMissingKey(Baseline["code"], path[1..]);
    }
    RightSurvivesWhereLeftIsAbsent(Obj(Baseline), Obj(caller), path);
  }

  /** A caller `code` that is not a plain object is replaced whole by the baseline's. */
  lemma NonObjectCodeReplaced(caller: Fields)
    requires "code" in caller && caller["code"].Leaf?
    ensures MergeDeepLeft(Baseline, caller)["code"] == Baseline["code"]
  {
    assert Merge(Obj(Baseline), Obj(caller)).fields["code"] == Merge(Baseline["code"], caller["code"]);
  }

  /** With the default `ajvOptions = {}` the engine options are exactly the baseline. */
  lemma DefaultIsBaseline()
    ensures MergeDeepLeft(Baseline, map[]) == Baseline
  {
  }
}
