/**
 * The icon shown beside a project in the sidebar, chosen by a `switch` on the
 * project id. The switch is kept as its table of case clauses, so that the
 * fall-through from `"tmux-config"` into `"nvim-config"` is modelled as JavaScript
 * runs it: control enters at the first clause whose label equals the id and runs
 * on until a clause that returns; with no matching label it enters `default`.
 */
module ProjectIcon {

  import opened Options

  datatype Icon = Code | Server | Cloud | Settings

  /** `case label:` followed by `return icon;`, or by nothing (falls through). */
  datatype Clause = Clause(caseLabel: string, result: Option<Icon>)

  const IconSwitch: seq<Clause> := [
    Clause("zapenu", Some(Server)),
    Clause("deploy-bot", Some(Cloud)),
    Clause("fittracker", Some(Code)),
    Clause("tmux-config", None),
    Clause("nvim-config", Some(Settings))
  ]

  /** `default: return Code;`, the last clause of the switch. */
  const DefaultIcon: Icon := Code

  /** The ids of the static project list. */
  const ProjectIds: seq<string> := ["zapenu", "deploy-bot", "fittracker", "tmux-config", "nvim-config"]

  /** The index of the first clause labelled `id`. */
  function FindLabel(clauses: seq<Clause>, id: string): (r: Option<nat>)
    ensures r.Some? ==> r.value < |clauses| && clauses[r.value].caseLabel == id
    ensures r.Some? ==> forall j :: 0 <= j < r.value ==> clauses[j].caseLabel != id
    ensures r.None? ==> forall j :: 0 <= j < |clauses| ==> clauses[j].caseLabel != id
  {
    if clauses == [] then None
    else if clauses[0].caseLabel == id then Some(0)
    else match FindLabel(clauses[1..], id)
      case None => None
      case Some(k) => Some(k + 1)
  }

  /** Run from clause `k` on: the first `return` met, or the default body after the last case. */
  function RunFrom(clauses: seq<Clause>, k: nat, default: Icon): (r: Icon)
    requires k <= |clauses|
    ensures (exists j :: k <= j < |clauses| && clauses[j].result.Some?) ==>
      exists j :: k <= j < |clauses| && clauses[j].result == Some(r)
        && forall m :: k <= m < j ==> clauses[m].result.None?
    ensures (forall j :: k <= j < |clauses| ==> clauses[j].result.None?) ==> r == default
    decreases |clauses| - k
  {
    if k == |clauses| then default
    else if clauses[k].result.Some? then clauses[k].result.value
    else RunFrom(clauses, k + 1, default)
  }

  /** A `switch` statement over string labels whose every path returns. */
  function Switch(clauses: seq<Clause>, default: Icon, id: string): (r: Icon)
    ensures FindLabel(clauses, id).None? ==> r == default
    ensures r == default || exists j :: 0 <= j < |clauses| && clauses[j].result == Some(r)
  {
    match FindLabel(clauses, id)
    case Some(k) => RunFrom(clauses, k, default)
    case None => default
  }

  /** `getProjectIcon(id)`. */
  function GetProjectIcon(id: string): (r: Icon)
    ensures r != Code ==> exists j :: 0 <= j < |IconSwitch| && IconSwitch[j].caseLabel == id
  {
    Switch(IconSwitch, DefaultIcon, id)
  }

  /** The explicit cases, the fall-through included. */
  lemma ExplicitCases()
    ensures GetProjectIcon("zapenu") == Server
    ensures GetProjectIcon("deploy-bot") == Cloud
    ensures GetProjectIcon("fittracker") == Code
    ensures GetProjectIcon("tmux-config") == Settings
    ensures GetProjectIcon("nvim-config") == Settings
  {
    assert IconSwitch[1].caseLabel == "deploy-bot";
    assert IconSwitch[2].caseLabel == "fittracker";
    assert IconSwitch[3].caseLabel == "tmux-config";
    assert IconSwitch[4].caseLabel == "nvim-config";
    assert FindLabel(IconSwitch, "tmux-config") == Some(3);
    assert FindLabel(IconSwitch, "nvim-config") == Some(4);
  }

  /** Every id without a case label gets the default icon: the mapping is total. */
  lemma UnknownIdIsCode(id: string)
    requires forall j :: 0 <= j < |IconSwitch| ==> IconSwitch[j].caseLabel != id
    ensures GetProjectIcon(id) == Code
  {
  }

  /** The only ids that get the Settings icon are the two configuration projects. */
  lemma SettingsOnlyForConfigs(id: string)
    ensures GetProjectIcon(id) == Settings <==> id == "tmux-config" || id == "nvim-config"
  {
    ExplicitCases();
    if GetProjectIcon(id) == Settings {
      SettingsComesFromConfigClause(id);
    }
  }

  lemma SettingsComesFromConfigClause(id: string)
    requires GetProjectIcon(id) == Settings
    ensures id == IconSwitch[3].caseLabel || id == IconSwitch[4].caseLabel
  {
    var k := FindLabel(IconSwitch, id).value;
    assert k >= 3;
  }

  /** Every project of the static list reaches an explicit case, never the default. */
  lemma ProjectIdsHaveCases()
    ensures forall p :: p in ProjectIds ==> FindLabel(IconSwitch, p).Some?
  {
    forall p | p in ProjectIds ensures FindLabel(IconSwitch, p).Some? {
      var k :| 0 <= k < |ProjectIds| && ProjectIds[k] == p;
      assert IconSwitch[k].caseLabel == ProjectIds[k];
    }
  }
}
