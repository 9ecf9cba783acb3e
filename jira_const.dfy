/** The fixed Jira data of src/team_devtools/jira/const.py: option lists and custom field ids. */
module JiraConst {
  const Priorities: seq<string> := ["Critical", "Major", "Normal", "Minor"]
  const IssueTypes: seq<string> := ["Task", "Story", "Spike", "Bug", "Epic"]
  const AffectsVersions: seq<string> := ["2.4", "2.5", "2.6", "aap-devel"]
  const Components: seq<string> := ["dev-tools", "vscode-plugin"]

  const AcceptanceCriteriaField: string := "customfield_12315940"
  const EpicLinkField: string := "customfield_12311140"
  const SprintField: string := "customfield_12310940"
  const StoryPointsField: string := "customfield_12310243"
  const WorkstreamField: string := "customfield_12319275"
  const Workstream: string := "Dev Tools"
}
