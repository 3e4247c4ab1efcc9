/**
 * The home screen's project progress: the active project and milestone, the
 * chain of footstones kept per `"project-milestone"` key (only the last one
 * is current), the plan video per key, and the set of keys whose project
 * has been started.
 */
module Progress {
  import opened Wrappers
  import Text

  /** A named stage of a milestone, with the plan and update videos filmed during it. */
  datatype Footstone = Footstone(name: string, plans: seq<string>, updates: seq<string>)

  /** Which list of the current footstone a filmed video is added to. */
  datatype MediaField = Plans | Updates

  /** The `${projectIndex}-${milestoneIndex}` key that chains, plan videos and started flags are filed under. */
  function ProjectKey(project: int, milestone: int): (key: string)
    ensures project >= 0 ==> Text.IntToString(project) <= key && |Text.IntToString(project)| < |key| && key[|Text.IntToString(project)|] == '-'
    ensures project >= 0 ==> Text.AllDigits(key[..|Text.IntToString(project)|])
  {
    Text.IntToString(project) + "-" + Text.IntToString(milestone)
  }

  /** In a digit string followed by a dash, the first dash is the one after the digits. */
  lemma FirstDash(a: string, b: string)
    requires Text.AllDigits(a)
    ensures (a + "-" + b)[|a|] == '-'
    ensures forall i :: 0 <= i < |a| ==> (a + "-" + b)[i] != '-'
  {
  }

  /** Different (project, milestone) pairs never share a key, so their chains never mix. */
  lemma ProjectKeyInjective(p1: nat, m1: nat, p2: nat, m2: nat)
    requires ProjectKey(p1, m1) == ProjectKey(p2, m2)
    ensures p1 == p2 && m1 == m2
  {
    var a1, b1, a2, b2 := Text.NatToString(p1), Text.NatToString(m1), Text.NatToString(p2), Text.NatToString(m2);
    var k := ProjectKey(p1, m1);
    assert k == a1 + "-" + b1 && k == a2 + "-" + b2;
    FirstDash(a1, b1);
    FirstDash(a2, b2);
    assert |a1| == |a2|;
    assert a1 == k[..|a1|] == a2;
    assert b1 == k[|a1| + 1..] == b2;
  }

  /**
   * `saveToFootstone`'s update of one chain: an empty chain first gets a
   * footstone named after the project; then the uri is appended to the
   * chosen list of the last footstone. Earlier footstones, the last one's
   * name and its other list stay as they were.
   */
  function WithMedia(chain: seq<Footstone>, projectName: string, uri: string, field: MediaField): (r: seq<Footstone>)
    ensures |r| == if chain == [] then 1 else |chain|
    ensures chain != [] ==> r[..|r| - 1] == chain[..|chain| - 1] && r[|r| - 1].name == chain[|chain| - 1].name
    ensures chain == [] ==> r[0].name == projectName
    ensures var before := if chain == [] then Footstone(projectName, [], []) else chain[|chain| - 1];
      && r[|r| - 1].plans == (if field == Plans then before.plans + [uri] else before.plans)
      && r[|r| - 1].updates == (if field == Updates then before.updates + [uri] else before.updates)
  {
    var list := if chain == [] then [Footstone(projectName, [], [])] else chain;
    var last := list[|list| - 1];
    var updatedLast := Footstone(
      last.name,
      if field == Plans then last.plans + [uri] else last.plans,
      if field == Updates then last.updates + [uri] else last.updates);
    list[..|list| - 1] + [updatedLast]
  }

  /**
   * The last plan video of a chain's current footstone, when there is a
   * non-empty one.
   */
  function LastPlan(chain: seq<Footstone>): (uri: Option<string>)
    ensures uri.Some? <==> (chain != [] && chain[|chain| - 1].plans != []
      && chain[|chain| - 1].plans[|chain[|chain| - 1].plans| - 1] != [])
    ensures uri.Some? ==> uri.value == chain[|chain| - 1].plans[|chain[|chain| - 1].plans| - 1]
  {
    if chain == [] then None
    else
      var plans := chain[|chain| - 1].plans;
      if plans != [] && plans[|plans| - 1] != [] then Some(plans[|plans| - 1]) else None
  }

  /** Filing a non-empty plan makes it the plan "Watch Last Plan" plays. */
  lemma FiledPlanIsLast(chain: seq<Footstone>, projectName: string, uri: string)
    requires uri != []
    ensures LastPlan(WithMedia(chain, projectName, uri, Plans)) == Some(uri)
  {
  }

  /** The project bookkeeping the home screen keeps in component state. */
  class ProjectProgress {
    var activeProject: int
    var activeMilestone: int
    var footstones: map<string, seq<Footstone>>
    var planVideos: map<string, string>
    var started: set<string>
    var lastPlanUri: Option<string>

    constructor ()
      ensures activeProject == -1 && activeMilestone == -1
      ensures footstones == map[] && planVideos == map[] && started == {} && lastPlanUri == None
    {
      activeProject, activeMilestone := -1, -1;
      footstones, planVideos, started, lastPlanUri := map[], map[], {}, None;
    }

    /** `Array.isArray(footstones[key]) ? footstones[key] : []`. */
    function Chain(key: string): seq<Footstone>
      reads this
    {
      if key in footstones then footstones[key] else []
    }

    /** The name shown for the active project: the current (last) footstone's name, else the project's own. */
    function DisplayName(key: string, projectName: string): (name: string)
      reads this
      ensures Chain(key) != [] ==> name == Chain(key)[|Chain(key)| - 1].name
      ensures Chain(key) == [] ==> name == projectName
    {
      var chain := Chain(key);
      if chain != [] then chain[|chain| - 1].name else projectName
    }

    /** `hasExisting`: a footstone already exists, so adding one replaces the current one. */
    predicate HasExisting(key: string)
      reads this
      ensures HasExisting(key) <==> key in footstones && footstones[key] != []
      ensures HasExisting(key) ==> DisplayName(key, "") == footstones[key][|footstones[key]| - 1].name
    {
      Chain(key) != []
    }

    /** "Watch Last Plan": the key's chain's last plan; `None` is the "No plan found" alert. */
    function LatestPlan(key: string): (uri: Option<string>)
      reads this
      ensures uri.Some? <==> (Chain(key) != [] && Chain(key)[|Chain(key)| - 1].plans != []
        && Chain(key)[|Chain(key)| - 1].plans[|Chain(key)[|Chain(key)| - 1].plans| - 1] != [])
      ensures uri.Some? ==> uri.value == Chain(key)[|Chain(key)| - 1].plans[|Chain(key)[|Chain(key)| - 1].plans| - 1]
    {
      LastPlan(Chain(key))
    }

    /**
     * Saving the footstone dialog: a blank trimmed name, or no active project
     * or milestone, changes nothing; otherwise a footstone with the trimmed
     * name and no videos is appended to the active key's chain and becomes
     * the current one.
     */
    method CreateFootstone(draft: string) returns (created: bool)
      modifies this
      ensures created <==> !Text.IsBlank(draft) && old(activeProject) >= 0 && old(activeMilestone) >= 0
      ensures created ==> footstones == old(footstones)[ProjectKey(activeProject, activeMilestone) :=
        old(Chain(ProjectKey(activeProject, activeMilestone))) + [Footstone(Text.Trim(draft), [], [])]]
      ensures created ==> DisplayName(ProjectKey(activeProject, activeMilestone), "") == Text.Trim(draft)
      ensures created ==> HasExisting(ProjectKey(activeProject, activeMilestone))
      ensures !created ==> footstones == old(footstones)
      ensures activeProject == old(activeProject) && activeMilestone == old(activeMilestone)
      ensures planVideos == old(planVideos) && started == old(started) && lastPlanUri == old(lastPlanUri)
    {
      var trimmed := Text.Trim(draft);
      if trimmed == [] || activeProject < 0 || activeMilestone < 0 {
        return false;
      }
      var key := ProjectKey(activeProject, activeMilestone);
      var list := Chain(key);
      list := list + [Footstone(trimmed, [], [])];
      footstones := footstones[key := list];
      created := true;
    }

    /** `saveToFootstone(uri, field)` for the chain under `key`; every other key is left alone. */
    method SaveToFootstone(key: string, projectName: string, uri: string, field: MediaField)
      modifies this`footstones
      ensures footstones == old(footstones)[key := WithMedia(old(Chain(key)), projectName, uri, field)]
    {
      footstones := footstones[key := WithMedia(Chain(key), projectName, uri, field)];
    }

    /** A plan video replaces the key's plan video and becomes the last plan filmed. */
    method RecordPlanVideo(key: string, uri: string)
      modifies this`planVideos, this`lastPlanUri
      ensures planVideos == old(planVideos)[key := uri] && lastPlanUri == Some(uri)
    {
      planVideos := planVideos[key := uri];
      lastPlanUri := Some(uri);
    }

    /**
     * Filing a finished video under `key`: a plan also becomes the key's plan
     * video and the last plan filmed; either way it joins the key's current
     * footstone.
     */
    method FileVideo(key: string, projectName: string, uri: string, planMode: bool)
      modifies this`footstones, this`planVideos, this`lastPlanUri
      ensures footstones == old(footstones)[key := WithMedia(old(Chain(key)), projectName, uri, if planMode then Plans else Updates)]
      ensures planMode ==> planVideos == old(planVideos)[key := uri] && lastPlanUri == Some(uri)
      ensures !planMode ==> planVideos == old(planVideos) && lastPlanUri == old(lastPlanUri)
      ensures planMode && uri != [] ==> LatestPlan(key) == Some(uri)
    {
      if planMode {
        RecordPlanVideo(key, uri);
        SaveToFootstone(key, projectName, uri, Plans);
        if uri != [] {
          FiledPlanIsLast(old(Chain(key)), projectName, uri);
        }
      } else {
        SaveToFootstone(key, projectName, uri, Updates);
      }
    }

    /** "Start Project": the active key joins the started set. */
    method StartProject()
      modifies this`started
      ensures started == old(started) + {ProjectKey(activeProject, activeMilestone)}
    {
      started := started + {ProjectKey(activeProject, activeMilestone)};
    }

    /**
     * Picking milestone `milestone` of project `project`: it becomes the
     * active pair and its key leaves the started set (its project has to be
     * started again); other keys keep their flag.
     */
    method SelectMilestone(project: int, milestone: int)
      modifies this`activeProject, this`activeMilestone, this`started
      ensures activeProject == project && activeMilestone == milestone
      ensures started == old(started) - {ProjectKey(project, milestone)}
    {
      activeProject, activeMilestone := project, milestone;
      var key := ProjectKey(project, milestone);
      if key in started {
        started := started - {key};
      } else {
        assert started - {key} == started;
      }
    }
  }
}
