/** Field lookup under alias names (`getField`) and the first-truthy `a || b || ... || ''`
    chains the credential gate and /check-number use. */
module Fields {
  import opened Values

  /** `name` is an own key of `obj` whose value is neither null nor undefined. */
  predicate Present(obj: map<string, Value>, name: string)
  {
    name in obj && obj[name].Str?
  }

  /** getField: the value of the first name, in list order, that is Present; an empty
      string is Present and ends the search. Otherwise the fallback. */
  function GetField(obj: map<string, Value>, names: seq<string>, fallback: Option<string>): (r: Option<string>)
    ensures (forall i :: 0 <= i < |names| ==> !Present(obj, names[i])) ==> r == fallback
    ensures forall i :: 0 <= i < |names| ==>
              Present(obj, names[i]) && (forall j :: 0 <= j < i ==> !Present(obj, names[j])) ==>
              r == Some(obj[names[i]].s)
  {
    if names == [] then fallback
    else if Present(obj, names[0]) then Some(obj[names[0]].s)
    else
      var r := GetField(obj, names[1..], fallback);
      assert forall i :: 1 <= i < |names| ==> names[i] == names[1..][i - 1];
      r
  }

  /** The result comes from the body unless no alias is present; with a fallback the
      result is never undefined. */
  lemma {:induction false} GetFieldSource(obj: map<string, Value>, names: seq<string>, fallback: Option<string>)
    ensures GetField(obj, names, fallback) != fallback ==>
              exists i :: 0 <= i < |names| && Present(obj, names[i]) && GetField(obj, names, fallback) == Some(obj[names[i]].s)
    ensures fallback.Some? ==> GetField(obj, names, fallback).Some?
  {
    if names != [] && !Present(obj, names[0]) {
      GetFieldSource(obj, names[1..], fallback);
      if GetField(obj, names, fallback) != fallback {
        var i :| 0 <= i < |names[1..]| && Present(obj, names[1..][i]) && GetField(obj, names, fallback) == Some(obj[names[1..][i]].s);
        assert names[1..][i] == names[i + 1];
      }
    }
  }

  /** Reading the same aliases again with the first read as fallback changes nothing
      (the image handler re-reads filename and mimetype that way). */
  lemma GetFieldReread(obj: map<string, Value>, names: seq<string>, fallback: Option<string>)
    ensures GetField(obj, names, GetField(obj, names, fallback)) == GetField(obj, names, fallback)
  {
    if exists i :: 0 <= i < |names| && Present(obj, names[i]) {
      var i := FirstPresent(obj, names);
    }
  }

  /** The least index whose name is Present. */
  lemma FirstPresent(obj: map<string, Value>, names: seq<string>) returns (i: nat)
    requires exists k :: 0 <= k < |names| && Present(obj, names[k])
    ensures i < |names| && Present(obj, names[i])
    ensures forall j :: 0 <= j < i ==> !Present(obj, names[j])
  {
    var k :| 0 <= k < |names| && Present(obj, names[k]);
    i := 0;
    while !Present(obj, names[i])
      invariant i <= k
      invariant forall j :: 0 <= j < i ==> !Present(obj, names[j])
      decreases k - i
    {
      i := i + 1;
    }
  }

  /** `c0 || c1 || ... || ''` over values that are strings or null/undefined. */
  function FirstTruthy(cands: seq<Option<string>>): (r: string)
    ensures r != "" ==> Some(r) in cands
  {
    if cands == [] then ""
    else if Truthy(cands[0]) then cands[0].value
    else
      var r := FirstTruthy(cands[1..]);
      assert cands == [cands[0]] + cands[1..];
      r
  }

  /** FirstTruthy gives the first non-empty candidate, in list order, and the empty
      string exactly when no candidate is a non-empty string. */
  lemma {:induction false} FirstTruthyFirst(cands: seq<Option<string>>)
    ensures FirstTruthy(cands) == "" <==> forall i :: 0 <= i < |cands| ==> !Truthy(cands[i])
    ensures forall i :: 0 <= i < |cands| ==>
              Truthy(cands[i]) && (forall j :: 0 <= j < i ==> !Truthy(cands[j])) ==> FirstTruthy(cands) == cands[i].value
  {
    if cands != [] && !Truthy(cands[0]) {
      FirstTruthyFirst(cands[1..]);
      assert forall i :: 1 <= i < |cands| ==> cands[i] == cands[1..][i - 1];
    }
  }

  /** A worked example: `{numero: "123"}` under `["to", "numero"]` gives "123". */
  lemma GetFieldExample()
    ensures GetField(map["numero" := Str("123")], ["to", "numero"], None) == Some("123")
  {
  }

  /** An empty string under an earlier alias wins over a later non-empty one. */
  lemma GetFieldEmptyStringStops(v: string)
    ensures GetField(map["to" := Str(""), "number" := Str(v)], ["to", "number"], None) == Some("")
  {
  }
}
