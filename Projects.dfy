/**
 * The projects page: the new-project form (a name and an editable list of
 * milestones, cleaned on save), and reading back the stored projects and
 * the footstone chains the home screen files under `"project-milestone"`
 * keys.
 */
module Projects {
  import opened Wrappers
  import opened Json
  import Text
  import Lists
  import opened Progress

  /** A project: its name and its milestone names. */
  datatype Project = Project(name: string, milestones: seq<string>)

  /** `milestones.map((m) => m.trim()).filter(Boolean)`: trimmed, blanks dropped, order kept. */
  function CleanMilestones(ms: seq<string>): (r: seq<string>)
    ensures |r| <= |ms|
    ensures forall k :: 0 <= k < |r| ==> r[k] != [] && Text.IsTrimmed(r[k])
    ensures forall x :: x in r <==> exists i :: 0 <= i < |ms| && Text.Trim(ms[i]) == x && x != []
  {
    if ms == [] then []
    else
      var rest := CleanMilestones(ms[1..]);
      assert forall i :: 1 <= i < |ms| ==> ms[i] == ms[1..][i - 1];
      if Text.Trim(ms[0]) == [] then rest else [Text.Trim(ms[0])] + rest
  }

  /** Cleaning a cleaned list changes nothing. */
  lemma {:induction false} CleanMilestonesIdempotent(ms: seq<string>)
    ensures CleanMilestones(CleanMilestones(ms)) == CleanMilestones(ms)
  {
    if ms != [] {
      CleanMilestonesIdempotent(ms[1..]);
      var rest := CleanMilestones(ms[1..]);
      var t := Text.Trim(ms[0]);
      if t != [] {
        Text.TrimIdempotent(ms[0]);
        assert ([t] + rest)[1..] == rest;
      }
    }
  }

  /** A list of non-blank, already trimmed milestones is kept exactly. */
  lemma {:induction false} CleanMilestonesKeepsClean(ms: seq<string>)
    requires forall k :: 0 <= k < |ms| ==> ms[k] != [] && Text.IsTrimmed(ms[k])
    ensures CleanMilestones(ms) == ms
  {
    if ms != [] {
      CleanMilestonesKeepsClean(ms[1..]);
      Text.TrimOfTrimmed(ms[0]);
      assert ms == [ms[0]] + ms[1..];
    }
  }

  /** The projects page's form and its saved projects. */
  class ProjectForm {
    var projects: seq<Project>
    var name: string
    var milestones: seq<string>
    var status: string
    var showForm: bool
    var showPostPrompt: bool

    /** An empty form with one empty milestone field. */
    constructor (projects: seq<Project>)
      ensures this.projects == projects && name == [] && milestones == [""] && status == []
      ensures !showForm && !showPostPrompt
    {
      this.projects := projects;
      name, milestones, status := [], [""], [];
      showForm, showPostPrompt := false, false;
    }

    /** "Add milestone": one more empty field at the end. */
    method AddMilestone()
      modifies this`milestones
      ensures milestones == old(milestones) + [""]
    {
      milestones := milestones + [""];
    }

    /** Typing into milestone field `idx`: only that field changes. */
    method UpdateMilestone(text: string, idx: int)
      requires 0 <= idx < |milestones|
      modifies this`milestones
      ensures |milestones| == |old(milestones)| && milestones[idx] == text
      ensures forall i :: 0 <= i < |milestones| && i != idx ==> milestones[i] == old(milestones)[i]
    {
      var next := milestones;
      next := next[idx := text];
      milestones := next;
    }

    /** Removing milestone field `idx`: exactly that field goes, the others keep their order. */
    method RemoveMilestone(idx: int)
      modifies this`milestones
      ensures milestones == Lists.DropIndex(old(milestones), idx)
    {
      milestones := Lists.DropIndex(milestones, idx);
    }

    /**
     * `handleSave`: a blank name only sets the status line. Otherwise one
     * project (trimmed name, cleaned milestones) is appended, the form is
     * reset to an empty name and one empty milestone and hidden, and the
     * post-save prompt opens when at least one milestone survived cleaning.
     */
    method Save() returns (saved: bool)
      modifies this
      ensures saved <==> !Text.IsBlank(old(name))
      ensures saved ==> projects == old(projects) + [Project(Text.Trim(old(name)), CleanMilestones(old(milestones)))]
      ensures saved ==> name == [] && milestones == [""] && !showForm && status == old(status)
      ensures saved ==> showPostPrompt == (old(showPostPrompt) || CleanMilestones(old(milestones)) != [])
      ensures !saved ==> (status == "Enter a project name." && projects == old(projects) && name == old(name)
        && milestones == old(milestones) && showForm == old(showForm) && showPostPrompt == old(showPostPrompt))
    {
      var trimmedName := Text.Trim(name);
      var cleanedMilestones := CleanMilestones(milestones);
      if trimmedName == [] {
        status := "Enter a project name.";
        return false;
      }
      projects := projects + [Project(trimmedName, cleanedMilestones)];
      name := [];
      milestones := [""];
      showForm := false;
      if |cleanedMilestones| > 0 {
        showPostPrompt := true;
      }
      saved := true;
    }
  }

  /** Strings as `JSON.stringify` writes them. */
  function StringsJson(ss: seq<string>): (r: seq<Json>)
    ensures |r| == |ss|
  {
    seq(|ss|, k requires 0 <= k < |ss| => JStr(ss[k]))
  }

  /** `Array.isArray(v) ? v.filter((u) => typeof u === 'string') : []`. */
  function StringListOr(v: Option<Json>): (r: seq<string>)
    ensures AsArray(v).None? ==> r == []
  {
    match AsArray(v)
    case Some(items) => Strings(items)
    case None => []
  }

  /** The projects loader for one entry: an object with a string name and an array of milestones, non-strings dropped. */
  function ProjectFromJson(p: Json): (r: Option<Project>)
    ensures r.Some? <==> AsString(Prop(p, "name")).Some? && AsArray(Prop(p, "milestones")).Some?
    ensures r.Some? ==> r.value.name == AsString(Prop(p, "name")).value
    ensures r.Some? ==> r.value.milestones == Strings(AsArray(Prop(p, "milestones")).value)
  {
    match (AsString(Prop(p, "name")), AsArray(Prop(p, "milestones")))
    case (Some(n), Some(items)) => Some(Project(n, Strings(items)))
    case _ => None
  }

  function ProjectsFromJson(items: seq<Json>): (r: seq<Project>)
    ensures |r| <= |items|
  {
    if items == [] then []
    else
      var rest := ProjectsFromJson(items[1..]);
      match ProjectFromJson(items[0])
      case Some(p) => [p] + rest
      case None => rest
  }

  function ProjectToJson(p: Project): Json {
    JObj(map["name" := JStr(p.name), "milestones" := JArr(StringsJson(p.milestones))])
  }

  function ProjectsToJson(ps: seq<Project>): (r: seq<Json>)
    ensures |r| == |ps|
  {
    if ps == [] then [] else [ProjectToJson(ps[0])] + ProjectsToJson(ps[1..])
  }

  /** Saved projects read back unchanged. */
  lemma {:induction false} ProjectsRoundTrip(ps: seq<Project>)
    ensures ProjectsFromJson(ProjectsToJson(ps)) == ps
  {
    if ps != [] {
      var js := ProjectsToJson(ps);
      assert js[0] == ProjectToJson(ps[0]) && js[1..] == ProjectsToJson(ps[1..]);
      var j := js[0];
      assert Prop(j, "name") == Some(JStr(ps[0].name));
      assert Prop(j, "milestones") == Some(JArr(StringsJson(ps[0].milestones)));
      StringsOfStrings(ps[0].milestones);
      ProjectsRoundTrip(ps[1..]);
      assert ps == [ps[0]] + ps[1..];
    }
  }

  /**
   * The footstone loader for one stored entry: an object with a string name
   * keeps it, with the string elements of its `plans` and `updates` arrays
   * (missing or non-array lists read as empty); anything else is dropped.
   */
  function FootstoneFromJson(v: Json): (r: Option<Footstone>)
    ensures r.Some? <==> IsObjectLike(v) && AsString(Prop(v, "name")).Some?
    ensures r.Some? ==> r.value.name == AsString(Prop(v, "name")).value
    ensures r.Some? ==> r.value.plans == StringListOr(Prop(v, "plans")) && r.value.updates == StringListOr(Prop(v, "updates"))
  {
    if !IsObjectLike(v) then None
    else
      match AsString(Prop(v, "name"))
      case None => None
      case Some(n) => Some(Footstone(n, StringListOr(Prop(v, "plans")), StringListOr(Prop(v, "updates"))))
  }

  function ChainFromJson(items: seq<Json>): (r: seq<Footstone>)
    ensures |r| <= |items|
  {
    if items == [] then []
    else
      var rest := ChainFromJson(items[1..]);
      match FootstoneFromJson(items[0])
      case Some(f) => [f] + rest
      case None => rest
  }

  /** `Object.entries(parsed)` of an object or an array (whose keys are its decimal indices). */
  function Entries(parsed: Json): (r: map<string, Json>)
    ensures parsed.JObj? ==> r == parsed.fields
    ensures parsed.JArr? ==> forall i :: 0 <= i < |parsed.items| ==>
      Text.NatToString(i) in r && r[Text.NatToString(i)] == parsed.items[i]
    ensures !IsObjectLike(parsed) ==> r == map[]
  {
    match parsed
    case JObj(fields) => fields
    case JArr(items) =>
      var m := map i | 0 <= i < |items| :: Text.NatToString(i) := items[i];
      assert forall i :: 0 <= i < |items| ==> Text.NatToString(i) in m;
      m
    case _ => map[]
  }

  /**
   * What the footstone loader yields: nothing unless the stored value is an
   * object (or array); otherwise each entry whose value is an array becomes
   * that key's chain of cleaned footstones, and no other key is set.
   */
  function LoadedFootstones(parsed: Json): (r: Option<map<string, seq<Footstone>>>)
    ensures r.Some? <==> IsObjectLike(parsed)
  {
    if !IsObjectLike(parsed) then None
    else
      var entries := Entries(parsed);
      Some(map key | key in entries && entries[key].JArr? :: ChainFromJson(entries[key].items))
  }

  /** The footstone loader, filling the cleaned map one stored entry at a time. */
  method LoadFootstones(parsed: Json) returns (cleaned: Option<map<string, seq<Footstone>>>)
    ensures cleaned == LoadedFootstones(parsed)
  {
    if !IsObjectLike(parsed) {
      return None;
    }
    var entries := Entries(parsed);
    var m: map<string, seq<Footstone>> := map[];
    var todo := entries.Keys;
    while todo != {}
      invariant todo <= entries.Keys
      invariant forall key :: key in m <==> key in entries && key !in todo && entries[key].JArr?
      invariant forall key :: key in m ==> m[key] == ChainFromJson(entries[key].items)
      decreases |todo|
    {
      var key :| key in todo;
      var value := entries[key];
      if value.JArr? {
        var arr := ChainFromJson(value.items);
        m := m[key := arr];
      }
      todo := todo - {key};
    }
    ghost var loaded := LoadedFootstones(parsed).value;
    assert m.Keys == loaded.Keys;
    assert forall key :: key in m ==> m[key] == loaded[key];
    SameMaps(m, loaded);
    cleaned := Some(m);
  }

  /** Two maps with the same keys and the same value at each key are equal. */
  lemma SameMaps<K, V>(a: map<K, V>, b: map<K, V>)
    requires a.Keys == b.Keys && forall k :: k in a ==> a[k] == b[k]
    ensures a == b
  {
  }

  /** A footstone as the home screen stores it. */
  function FootstoneToJson(f: Footstone): Json {
    JObj(map["name" := JStr(f.name), "plans" := JArr(StringsJson(f.plans)), "updates" := JArr(StringsJson(f.updates))])
  }

  function ChainToJson(c: seq<Footstone>): (r: seq<Json>)
    ensures |r| == |c|
  {
    if c == [] then [] else [FootstoneToJson(c[0])] + ChainToJson(c[1..])
  }

  /** One stored footstone reads back unchanged. */
  lemma FootstoneRoundTrip(f: Footstone)
    ensures FootstoneFromJson(FootstoneToJson(f)) == Some(f)
  {
    var j := FootstoneToJson(f);
    assert Prop(j, "name") == Some(JStr(f.name));
    assert Prop(j, "plans") == Some(JArr(StringsJson(f.plans)));
    assert Prop(j, "updates") == Some(JArr(StringsJson(f.updates)));
    StringsOfStrings(f.plans);
    StringsOfStrings(f.updates);
  }

  /** A stored footstone that loads is kept at the front of its chain. */
  lemma ChainFromJsonStep(j: Json, rest: seq<Json>, f: Footstone)
    requires FootstoneFromJson(j) == Some(f)
    ensures ChainFromJson([j] + rest) == [f] + ChainFromJson(rest)
  {
    assert ([j] + rest)[1..] == rest;
  }

  /** A stored chain reads back unchanged, footstone for footstone. */
  lemma {:induction false} ChainRoundTrip(c: seq<Footstone>)
    ensures ChainFromJson(ChainToJson(c)) == c
  {
    if c != [] {
      FootstoneRoundTrip(c[0]);
      ChainRoundTrip(c[1..]);
      ChainFromJsonStep(FootstoneToJson(c[0]), ChainToJson(c[1..]), c[0]);
      assert ChainToJson(c) == [FootstoneToJson(c[0])] + ChainToJson(c[1..]);
      assert c == [c[0]] + c[1..];
    }
  }

  /** All chains as the home screen stores them, one array per project-milestone key. */
  function FootstonesToJson(fs: map<string, seq<Footstone>>): Json {
    JObj(map key | key in fs :: JArr(ChainToJson(fs[key])))
  }

  /** The stored footstone chains load back exactly. */
  lemma FootstonesRoundTrip(fs: map<string, seq<Footstone>>)
    ensures LoadedFootstones(FootstonesToJson(fs)) == Some(fs)
  {
    var entries := Entries(FootstonesToJson(fs));
    var loaded := LoadedFootstones(FootstonesToJson(fs)).value;
    assert entries.Keys == fs.Keys;
    assert loaded.Keys == fs.Keys;
    forall key | key in fs
      ensures loaded[key] == fs[key]
    {
      assert entries[key] == JArr(ChainToJson(fs[key]));
      ChainRoundTrip(fs[key]);
    }
    assert loaded == fs;
  }
}
