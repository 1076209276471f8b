/** Motion classification: a motion-activity sample becomes a label and a moving flag. */
module Motion {
  import opened Text
  import opened Wrappers

  /** The five classifications of a `CMMotionActivity` sample. */
  datatype MotionActivity = MotionActivity(
    walking: bool, running: bool, automotive: bool, cycling: bool, stationary: bool)

  /** The label names, in the order the label lists them. */
  const ActivityNames: seq<string> := ["Walking", "Running", "Automotive", "Cycling", "Stationary"]

  /** The label shown when no classification is set. */
  const UnknownLabel: string := "Unknown"

  /** `[name]` when `flag` is set, else nothing. */
  function NameIf(flag: bool, name: string): seq<string>
  {
    if flag then [name] else []
  }

  /** The position of a classification name in `ActivityNames` (5 for any other string). */
  function NameRank(name: string): nat
  {
    if name == "Walking" then 0
    else if name == "Running" then 1
    else if name == "Automotive" then 2
    else if name == "Cycling" then 3
    else if name == "Stationary" then 4
    else 5
  }

  /** Every entry of `types` is a classification name of rank below `bound`, and the ranks
      strictly increase along `types`. */
  predicate RankedBelow(types: seq<string>, bound: nat)
  {
    (forall k :: 0 <= k < |types| ==> NameRank(types[k]) < bound)
    && (forall i, j :: 0 <= i < j < |types| ==> NameRank(types[i]) < NameRank(types[j]))
  }

  /** The classification names differ in their first letter, so each has its own rank. */
  lemma NameRanks()
    ensures NameRank("Walking") == 0 && NameRank("Running") == 1 && NameRank("Automotive") == 2
    ensures NameRank("Cycling") == 3 && NameRank("Stationary") == 4
  {
    assert "Running"[0] != "Walking"[0];
    assert "Automotive"[0] != "Walking"[0] && "Automotive"[0] != "Running"[0];
    assert "Cycling"[0] != "Walking"[0] && "Cycling"[0] != "Running"[0];
    assert "Cycling"[0] != "Automotive"[0];
    assert "Stationary"[0] != "Walking"[0] && "Stationary"[0] != "Running"[0];
    assert "Stationary"[0] != "Automotive"[0] && "Stationary"[0] != "Cycling"[0];
  }

  /** Appending a name whose rank exceeds every rank so far keeps the ranks increasing. */
  lemma AppendRanked(types: seq<string>, flag: bool, name: string, rank: nat)
    requires NameRank(name) == rank < 5 && RankedBelow(types, rank)
    ensures RankedBelow(types + NameIf(flag, name), rank + 1)
  {
  }

  /** The names of the set classifications, in the order of `ActivityNames`. */
  function ActivityTypes(a: MotionActivity): (types: seq<string>)
    ensures |types| <= |ActivityNames|
  {
    NameIf(a.walking, "Walking") + NameIf(a.running, "Running")
    + NameIf(a.automotive, "Automotive") + NameIf(a.cycling, "Cycling")
    + NameIf(a.stationary, "Stationary")
  }

  /** Every selected type is a classification name, and their positions in `ActivityNames`
      strictly increase along the list: the label keeps the fixed order and names nothing twice. */
  lemma TypesInNameOrder(a: MotionActivity)
    ensures forall k :: 0 <= k < |ActivityTypes(a)| ==> NameRank(ActivityTypes(a)[k]) < |ActivityNames|
    ensures forall i, j :: 0 <= i < j < |ActivityTypes(a)| ==>
              NameRank(ActivityTypes(a)[i]) < NameRank(ActivityTypes(a)[j])
  {
    NameRanks();
    var t1 := NameIf(a.walking, "Walking");
    assert RankedBelow(t1, 1) by { AppendRanked([], a.walking, "Walking", 0); assert [] + t1 == t1; }
    var t2 := t1 + NameIf(a.running, "Running");
    AppendRanked(t1, a.running, "Running", 1);
    var t3 := t2 + NameIf(a.automotive, "Automotive");
    AppendRanked(t2, a.automotive, "Automotive", 2);
    var t4 := t3 + NameIf(a.cycling, "Cycling");
    AppendRanked(t3, a.cycling, "Cycling", 3);
    var t5 := t4 + NameIf(a.stationary, "Stationary");
    AppendRanked(t4, a.stationary, "Stationary", 4);
    assert ActivityTypes(a) == t5;
  }

  /** Each name is among the selected types exactly when its flag is set. */
  lemma SelectedExactly(a: MotionActivity)
    ensures var types := ActivityTypes(a);
            ("Walking" in types <==> a.walking) && ("Running" in types <==> a.running)
            && ("Automotive" in types <==> a.automotive) && ("Cycling" in types <==> a.cycling)
            && ("Stationary" in types <==> a.stationary)
  {
  }

  /** A classification name contains no comma. */
  lemma RankedCommaFree(name: string)
    requires NameRank(name) < 5
    ensures ',' !in name
  {
  }

  /** No classification name contains a comma, so no ", " can begin inside one. */
  lemma TypesCommaFree(a: MotionActivity)
    ensures forall k :: 0 <= k < |ActivityTypes(a)| ==> ',' !in ActivityTypes(a)[k]
  {
    var types := ActivityTypes(a);
    TypesInNameOrder(a);
    forall k | 0 <= k < |types| ensures ',' !in types[k] {
      RankedCommaFree(types[k]);
    }
  }

  /** `currentActivity` after a sample: the set classifications joined by ", ", or "Unknown".
      Splitting a joined label at ", " gives the classifications back, in order. */
  function ActivityLabel(a: MotionActivity): (shown: string)
    ensures shown != ""
    ensures ActivityTypes(a) != [] ==> SplitOn(shown, ", ") == ActivityTypes(a)
  {
    var types := ActivityTypes(a);
    if types == [] then UnknownLabel
    else
      TypesCommaFree(a);
      JoinSplitRoundTrip(types, ", ");
      assert Join(types, ", ") != "" by {
        SplitOnWhole("", ", ");
        TypesInNameOrder(a);
      }
      Join(types, ", ")
  }

  /** Reads the five flags back from a label: a flag is set when its name is one of the
      label's ", "-separated parts. */
  function ParseLabel(shown: string): MotionActivity
  {
    var parts := SplitOn(shown, ", ");
    MotionActivity("Walking" in parts, "Running" in parts, "Automotive" in parts,
                   "Cycling" in parts, "Stationary" in parts)
  }

  /** The label lists exactly the set classifications: reading it back gives the sample's
      flags, for every sample, including the one with no flag set ("Unknown"). */
  lemma LabelRoundTrip(a: MotionActivity)
    ensures ParseLabel(ActivityLabel(a)) == a
  {
    SelectedExactly(a);
    if ActivityTypes(a) == [] {
      SplitOnWhole(UnknownLabel, ", ");
    }
  }

  /** The label is "Unknown" exactly when no classification is set. */
  lemma LabelUnknownIffNoFlags(a: MotionActivity)
    ensures ActivityLabel(a) == UnknownLabel
            <==> !(a.walking || a.running || a.automotive || a.cycling || a.stationary)
  {
    LabelRoundTrip(a);
    SplitOnWhole(UnknownLabel, ", ");
  }

  /** The motion classifier, with the last sample's label and moving flag. */
  class MotionService {
    /** Whether the device can report motion activity at all. */
    const activityAvailable: bool
    /** Whether activity updates have been started and not stopped. */
    var monitoring: bool
    var currentActivity: string
    var isMoving: bool

    /** A fresh classifier has seen no sample. */
    constructor (activityAvailable: bool)
      ensures this.activityAvailable == activityAvailable
      ensures currentActivity == UnknownLabel && !isMoving && !monitoring
    {
      this.activityAvailable := activityAvailable;
      monitoring := false;
      currentActivity := UnknownLabel;
      isMoving := false;
    }

    /** Starts activity updates, unless the device cannot report motion activity. */
    method StartMonitoring()
      modifies this
      ensures monitoring == (activityAvailable || old(monitoring))
      ensures currentActivity == old(currentActivity) && isMoving == old(isMoving)
    {
      if !activityAvailable {
        return;
      }
      monitoring := true;
    }

    /** Stops activity updates. */
    method StopMonitoring()
      modifies this
      ensures !monitoring
      ensures currentActivity == old(currentActivity) && isMoving == old(isMoving)
    {
      monitoring := false;
    }

    /** Overwrites the label and the moving flag from one sample; the result depends on that
        sample alone. */
    method UpdateActivity(activity: MotionActivity)
      modifies this
      ensures currentActivity == ActivityLabel(activity)
      ensures isMoving == !activity.stationary
      ensures monitoring == old(monitoring)
    {
      var types: seq<string> := [];
      if activity.walking { types := types + ["Walking"]; }
      ghost var built := NameIf(activity.walking, "Walking");
      assert types == built;
      if activity.running { types := types + ["Running"]; }
      built := built + NameIf(activity.running, "Running");
      assert types == built;
      if activity.automotive { types := types + ["Automotive"]; }
      built := built + NameIf(activity.automotive, "Automotive");
      assert types == built;
      if activity.cycling { types := types + ["Cycling"]; }
      built := built + NameIf(activity.cycling, "Cycling");
      assert types == built;
      if activity.stationary { types := types + ["Stationary"]; }
      built := built + NameIf(activity.stationary, "Stationary");
      assert types == built == ActivityTypes(activity);

      if types == [] {
        currentActivity := UnknownLabel;
      } else {
        currentActivity := Join(types, ", ");
      }
      isMoving := !activity.stationary;
    }

    /** The activity handler: a nil sample is ignored. */
    method OnActivity(activity: Option<MotionActivity>)
      modifies this
      ensures activity.None? ==> currentActivity == old(currentActivity) && isMoving == old(isMoving)
      ensures activity.Some? ==> currentActivity == ActivityLabel(activity.value)
                                 && isMoving == !activity.value.stationary
      ensures monitoring == old(monitoring)
    {
      if activity.None? {
        return;
      }
      UpdateActivity(activity.value);
    }
  }
}
