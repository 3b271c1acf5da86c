/** The detected-object aggregation of the image path (flask/app.py:130-132, 141). */
module Image {
  import opened Wrappers

  /** The names of the classes of the boxes: `{names[c] for c in classes}`. */
  ghost function DetectedNames(classes: seq<int>, names: map<int, string>): (detected: set<string>)
    ensures forall i :: 0 <= i < |classes| && classes[i] in names ==> names[classes[i]] in detected
    ensures forall x :: x in detected ==>
      exists i :: 0 <= i < |classes| && classes[i] in names && names[classes[i]] == x
  {
    set i | 0 <= i < |classes| && classes[i] in names :: names[classes[i]]
  }

  /** Aggregating collapses repeats, so there are never more names than boxes. */
  lemma {:induction false} DetectedNamesBound(classes: seq<int>, names: map<int, string>)
    ensures |DetectedNames(classes, names)| <= |classes|
  {
    if classes != [] {
      var init := classes[..|classes| - 1];
      DetectedNamesBound(init, names);
      var last := classes[|classes| - 1];
      var extra: set<string> := if last in names then {names[last]} else {};
      assert DetectedNames(classes, names) == DetectedNames(init, names) + extra by {
        forall x | x in DetectedNames(classes, names) ensures x in DetectedNames(init, names) + extra {
          var i :| 0 <= i < |classes| && classes[i] in names && names[classes[i]] == x;
          if i < |classes| - 1 {
            assert init[i] == classes[i];
          }
        }
        forall x | x in DetectedNames(init, names) ensures x in DetectedNames(classes, names) {
          var i :| 0 <= i < |init| && init[i] in names && names[init[i]] == x;
          assert classes[i] == init[i];
        }
      }
    }
  }

  /** The loop `for box in results[0].boxes: detected_objects.add(names[int(box.cls)])`.
      `Err(c)` is the KeyError raised by the first class `c` that `names` lacks. */
  method CollectDetectedObjects(classes: seq<int>, names: map<int, string>)
    returns (r: Result<set<string>, int>)
    ensures r.Ok? <==> forall i :: 0 <= i < |classes| ==> classes[i] in names
    ensures r.Ok? ==> r.value == DetectedNames(classes, names)
    ensures r.Ok? ==> forall i :: 0 <= i < |classes| ==> classes[i] in names && names[classes[i]] in r.value
    ensures r.Ok? ==> forall x :: x in r.value ==>
      exists i :: 0 <= i < |classes| && classes[i] in names && names[classes[i]] == x
    ensures r.Ok? ==> |r.value| <= |classes|
    ensures r.Err? ==> r.error !in names
    ensures r.Err? ==>
      exists i :: 0 <= i < |classes| && classes[i] == r.error && forall j :: 0 <= j < i ==> classes[j] in names
  {
    var detected: set<string> := {};
    for i := 0 to |classes|
      invariant forall j :: 0 <= j < i ==> classes[j] in names
      invariant detected == DetectedNames(classes[..i], names)
    {
      var c := classes[i];
      if c !in names {
        return Err(c);
      }
      assert classes[..i + 1] == classes[..i] + [c];
      assert DetectedNames(classes[..i + 1], names) == detected + {names[c]} by {
        forall x | x in DetectedNames(classes[..i + 1], names) ensures x in detected + {names[c]} {
          var k :| 0 <= k < i + 1 && classes[..i + 1][k] in names && names[classes[..i + 1][k]] == x;
          if k < i {
            assert classes[..i][k] == classes[..i + 1][k];
          }
        }
        forall x | x in detected ensures x in DetectedNames(classes[..i + 1], names) {
          var k :| 0 <= k < i && classes[..i][k] in names && names[classes[..i][k]] == x;
          assert classes[..i + 1][k] == classes[..i][k];
        }
      }
      detected := detected + {names[c]};
    }
    assert classes[..|classes|] == classes;
    DetectedNamesBound(classes, names);
    r := Ok(detected);
  }
}
