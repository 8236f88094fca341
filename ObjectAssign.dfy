/**
 * `assign(...args)` of src/util.ts: a shallow merge that copies the own
 * enumerable properties of each source, left to right, onto the target
 * object and returns that same object.
 */
module ObjectAssign {
  import opened Wrappers

  /** A JavaScript object; `props` holds its own enumerable properties. */
  class JsObject<V> {
    var props: map<string, V>

    constructor (props: map<string, V>)
      ensures this.props == props
    {
      this.props := props;
    }
  }

  /** The `TypeError` thrown for a missing target. */
  const NullTargetMessage := "Cannot convert undefined or null to object"

  /**
   * What one argument contributes to the merge: nothing for `null` or
   * `undefined`, and nothing for the target itself (copying an object's
   * properties onto itself changes nothing); otherwise its properties.
   */
  function Contribution<V>(source: JsObject?<V>, target: JsObject<V>): Option<map<string, V>>
    reads source
  {
    if source == null || source == target then None else Some(source.props)
  }

  function Contributions<V>(sources: seq<JsObject?<V>>, target: JsObject<V>): (cs: seq<Option<map<string, V>>>)
    reads set i | 0 <= i < |sources| && sources[i] != null :: sources[i]
    ensures |cs| == |sources|
    ensures forall i :: 0 <= i < |sources| ==> cs[i] == Contribution(sources[i], target)
  {
    if sources == [] then []
    else Contributions(sources[..|sources| - 1], target) + [Contribution(sources[|sources| - 1], target)]
  }

  /** Overlays one contribution: its keys take its values, the other keys keep theirs. */
  function Overlay<V>(acc: map<string, V>, c: Option<map<string, V>>): map<string, V>
  {
    match c
    case None => acc
    case Some(m) => acc + m
  }

  /** The target's properties after all contributions, applied left to right. */
  function MergeAll<V>(acc: map<string, V>, cs: seq<Option<map<string, V>>>): map<string, V>
  {
    if cs == [] then acc else Overlay(MergeAll(acc, cs[..|cs| - 1]), cs[|cs| - 1])
  }

  /** Contribution `c` has its own property `k`. */
  predicate Owns<V>(c: Option<map<string, V>>, k: string)
  {
    c.Some? && k in c.value
  }

  /** A key owned by some source gets its value from the last source that owns it. */
  lemma {:induction false} LastOwnerWins<V>(acc: map<string, V>, cs: seq<Option<map<string, V>>>, k: string, i: nat)
    requires i < |cs| && Owns(cs[i], k)
    requires forall j :: i < j < |cs| ==> !Owns(cs[j], k)
    ensures k in MergeAll(acc, cs) && MergeAll(acc, cs)[k] == cs[i].value[k]
  {
    if i < |cs| - 1 {
      LastOwnerWins(acc, cs[..|cs| - 1], k, i);
    }
  }

  /** A key owned by no source is present, with the target's value, exactly when the target had it. */
  lemma {:induction false} UnownedKeyKept<V>(acc: map<string, V>, cs: seq<Option<map<string, V>>>, k: string)
    requires forall j :: 0 <= j < |cs| ==> !Owns(cs[j], k)
    ensures k in MergeAll(acc, cs) <==> k in acc
    ensures k in acc ==> MergeAll(acc, cs)[k] == acc[k]
  {
    if cs != [] {
      UnownedKeyKept(acc, cs[..|cs| - 1], k);
    }
  }

  /** The inner `for ... in` loop: copies every own property of `source` onto `output`. */
  method CopyOwnProperties<V>(output: JsObject<V>, source: JsObject<V>)
    modifies output
    ensures output.props == old(output.props) + old(source.props)
  {
    ghost var out0 := output.props;
    ghost var src0 := source.props;
    var keys := source.props.Keys;
    while keys != {}
      invariant keys <= src0.Keys
      invariant output.props == out0 + (src0 - keys)
      invariant source != output ==> source.props == src0
      invariant source == output ==> src0 == out0
      decreases keys
    {
      var nextKey :| nextKey in keys;
      output.props := output.props[nextKey := source.props[nextKey]];
      keys := keys - {nextKey};
    }
    assert src0 - {} == src0;
  }

  /**
   * `assign(target, ...sources)`: throws `TypeError` for a `null` or
   * `undefined` target; otherwise merges every source into the target, in
   * place, and returns the target itself.
   */
  method Assign<V>(target: JsObject?<V>, sources: seq<JsObject?<V>>) returns (r: Result<JsObject<V>, string>)
    modifies target
    ensures target == null ==> r == Failure(NullTargetMessage)
    ensures target != null ==> r == Success(target)
    ensures target != null ==> target.props == MergeAll(old(target.props), old(Contributions(sources, target)))
  {
    if target == null {
      return Failure(NullTargetMessage);
    }
    var output := target;
    ghost var cs := Contributions(sources, target);
    for index := 0 to |sources|
      invariant output == target
      invariant output.props == MergeAll(old(target.props), cs[..index])
    {
      var source := sources[index];
      assert cs[..index + 1][..index] == cs[..index];
      assert source != null && source != target ==> cs[index] == Some(source.props);
      if source != null {
        CopyOwnProperties(output, source);
      }
    }
    assert cs[..|sources|] == cs;
    r := Success(output);
  }
}
