/** The search-box suggestions of both result pages: each page runs the same
    `handleInputChange` over the same fixed skill list. */
module Suggestions {
  import opened Common
  import opened Text

  const CommonSkills: seq<string> := [
    "react", "javascript", "node.js", "python", "sql",
    "java", "angular", "vue", "typescript", "c#",
    "aws", "docker", "kubernetes", "graphql", "rest api",
    "ui design", "ux design", "marketing", "sales", "product management"]

  const MaxSuggestions := 5

  /** What typing does to the dropdown: hide it, or show these items. */
  datatype Update = Hide | Show(items: seq<string>)

  /** `skill.toLowerCase().includes(value.toLowerCase())`. */
  function MatchesInput(value: string): string -> bool {
    skill => ContainsIgnoringCase(skill, value)
  }

  /** Suggestions for the typed `value`: shown only from two characters on,
      at most five, each containing the input case-insensitively, in the
      order of the skill list, and none left out while there is room. */
  function SuggestionsFor(value: string): (u: Update)
    ensures u.Show? <==> |value| > 1
    ensures u.Show? ==> |u.items| <= MaxSuggestions
    ensures u.Show? ==> IsSubsequence(u.items, CommonSkills)
    ensures u.Show? ==> forall s :: s in u.items ==> s in CommonSkills && ContainsIgnoringCase(s, value)
    ensures u.Show? && |u.items| < MaxSuggestions ==>
      forall s :: s in CommonSkills && ContainsIgnoringCase(s, value) ==> s in u.items
    ensures u.Show? ==> forall i, j ::
      0 <= i < j < |CommonSkills| && CommonSkills[j] in u.items && ContainsIgnoringCase(CommonSkills[i], value)
      ==> CommonSkills[i] in u.items
  {
    if |value| > 1 then
      var all := Filter(CommonSkills, MatchesInput(value));
      var items := Take(all, MaxSuggestions);
      PrefixIsSubsequence(all, CommonSkills, |items|);
      assert items == all[..|items|];
      SkillsDistinct();
      forall i, j | 0 <= i < j < |CommonSkills| && CommonSkills[j] in items
                    && ContainsIgnoringCase(CommonSkills[i], value)
        ensures CommonSkills[i] in items
      {
        TakeFilterPrefixClosed(CommonSkills, MatchesInput(value), MaxSuggestions, i, j);
      }
      Show(items)
    else Hide
  }

  /** No skill is listed twice. */
  lemma SkillsDistinct()
    ensures Distinct(CommonSkills)
  {
    forall i, j | 0 <= i < j < |CommonSkills| ensures CommonSkills[i] != CommonSkills[j] {
      var a, b := CommonSkills[i], CommonSkills[j];
      assert |a| != |b| || a[0] != b[0] || a[1] != b[1];
    }
  }
}
