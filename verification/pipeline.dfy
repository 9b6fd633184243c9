/** The page and the endpoint together: what the page posts as `names` is
    what the endpoint embeds in its prompt. */
module Pipeline {
  import opened Wrappers
  import opened Text
  import opened Items
  import opened RoastRoute

  /** Every roasted item's name reaches the language model verbatim. When the
      names list is empty the default replaces it, but then every name is
      empty and trivially contained. */
  lemma ItemNamesReachPrompt(items: seq<Item>, t: PromptTemplate, k: int)
    requires 0 <= k < |items|
    ensures IsInfix(items[k].name, Prompt(t, NamesOrDefault(Some(NamesList(items)))))
  {
    var names := NamesOrDefault(Some(NamesList(items)));
    var prompt := Prompt(t, names);
    NamesListContainsEach(items, k);
    if NamesList(items) == "" {
      assert OccursAt(prompt, items[k].name, 0);
    } else {
      assert OccursAt(prompt, names, |t.head|);
      InfixTransitive(items[k].name, names, prompt);
    }
  }
}
