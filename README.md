# Opportunity Connect: a verified model of the page script

Opportunity Connect is a small static web site. It helps students find internships.
One script drives the site.
This project models the parts of that script that compute something, and proves what they promise:

- **Pages**: which page a URL path selects (`getCurrentPage`).
- **Translation**: the element-by-element text update when the language changes (`changeLanguage`), with the translation table passed in as a parameter.
- **Wizard**: the three-step profile form. It is a class holding `currentStep`. It covers:
  - the Next, Previous and Submit buttons;
  - the required-field check of each step;
  - what each step shows (indicator, progress bar, panels, buttons).
- **Forms**: the two folds over `FormData.entries()`.
  - The profile's fold gathers `skills` into a list; every other name keeps its last value.
  - The contact form's fold keeps the last value of every name, then checks the required fields.
- **Scoring** and **Ranking**: how `generateRecommendations` scores a posting, and the stable in-place sort by descending score.
  - The sort is an insertion sort on an array.
  - It is proved equal to the unique stable non-increasing order of the scored postings. So any stable sort returns the same result, `Array.prototype.sort` included: it is stable since the 2019 edition of ECMA-262 (section 23.1.3.30 in current editions).
- **Recommend**: the whole of `generateRecommendations`. It returns the first three catalog postings when there is no profile with skills. Otherwise it returns the first three of the sorted scored catalog.
- **Notices**: the order of `showMessage` calls. Each call removes the message on screen and appends its own.
- **Strings**: the JavaScript string operations these rely on (`includes`, `lastIndexOf`, `substring`, `trim`, `toLowerCase`).

Behaviours of the code worth knowing:

- **Step 2 without a skill.** The code calls `showMessage` twice: the skill message, then the generic one. Each call removes the message already on screen, so only the generic message stays (`Wizard.FailedStepShowsGeneralMessage`).
- **Location bonus.** Only the posting's location is lower-cased (opportunity_connect/script.js:455). A profile location holding a capital letter therefore never earns the bonus (`Scoring.CapitalizedLocationNeverMatches`).
- **Skill count.** The score counts the posting's skills with repetition, because the code loops with `forEach`. It equals the size of the skill-set intersection when the posting lists no skill twice (`Scoring.MatchCountIsIntersection`).

Inputs that the browser supplies become parameters:

- the path name;
- the tagged elements;
- for each step, the values of its required fields and the number of checked skills;
- the form entries;
- the profile and the catalog.

## Model

| member | source | states |
|---|---|---|
| Strings.Contains | opportunity_connect/script.js:101-105 | `includes` is true exactly when the substring occurs at some index |
| Strings.ContainsInSuffix | opportunity_connect/script.js:97-105 | a keyword found in the file name at the end of the path is found in the path |
| Strings.LastIndexOf | opportunity_connect/script.js:98 | `lastIndexOf` returns -1 or an index holding the character, and no later index holds it |
| Strings.TrimStart | opportunity_connect/script.js:325 | the result is a suffix of the input, only whitespace was dropped, and it does not start with whitespace |
| Strings.TrimEnd | opportunity_connect/script.js:325 | the result is a prefix of the input, only whitespace was dropped, and it does not end with whitespace |
| Strings.Trim | opportunity_connect/script.js:325 | `trim` leaves a contiguous slice of the value with only whitespace cut from either side and none left at either end, and gives the empty string exactly when the value is all whitespace |
| Strings.IsBlank | opportunity_connect/script.js:325 | `!value.trim()`: the trimmed value is empty; its meaning is stated by `Strings.BlankIffAllWhitespace` |
| Strings.BlankIffAllWhitespace | opportunity_connect/script.js:325 | `!value.trim()` holds exactly when every character is whitespace |
| Strings.ToLowerChar | opportunity_connect/script.js:455 | never yields a capital letter, maps each capital A to Z to the lower-case letter at the same offset, and keeps every other character |
| Strings.ToLower | opportunity_connect/script.js:455 | `toLowerCase` keeps the length, lower-cases each character in place, leaves no capital letter and keeps every other character |
| Strings.CapitalNeverInLowered | opportunity_connect/script.js:455 | a string holding a capital letter never occurs in a lower-cased string |
| Strings.MissingCharacter | opportunity_connect/script.js:101-105 | a string holding a character that the other lacks does not occur in it |
| Strings.LoweredLacks | opportunity_connect/script.js:455 | a letter missing from a string in both cases is missing from its lower-cased form |
| Notices.Show | opportunity_connect/script.js:574-579 | `showMessage` removes the first message on screen, if there is one, keeps the others in order, and the new message ends up last |
| Notices.ShowAll | opportunity_connect/script.js:574-579 | a run of calls leaves the screen as it was when there are none, and otherwise adds at most one message, with the last call's message last |
| Notices.LastCallWins | opportunity_connect/script.js:574-579 | starting from at most one message, a run of calls leaves only the last call's message on screen |
| Pages.FileName | opportunity_connect/script.js:97-98 | the file name is the longest suffix of the path without '/', and is preceded by '/' when the path is longer |
| Pages.Classify | opportunity_connect/script.js:100-107 | a page other than index contains its keyword and none of the keywords tried before it; index exactly when the name is empty, is `index.html`, or contains no keyword |
| Pages.CurrentPage | opportunity_connect/script.js:96-107 | `getCurrentPage` selects a page other than home only when the path contains its keyword, and a path without '/' is classified as it stands |
| Pages.DirectoryIgnored | opportunity_connect/script.js:96-107 | the directories in front of the file name never change the page |
| Pages.ProfileFileName | opportunity_connect/script.js:101 | `profile.html` selects the profile page |
| Pages.AboutFileName | opportunity_connect/script.js:101-105 | `about.html` contains none of the earlier keywords and selects the about page |
| Pages.UnknownFileName | opportunity_connect/script.js:101-107 | `faq.html`, which holds no keyword, selects the home page |
| Translation.Lookup | opportunity_connect/script.js:36 | a text is found exactly when the language is in the table, the key is in its table and the text is not empty, and then it is that text |
| Translation.Translate | opportunity_connect/script.js:35-38 | one element keeps its key; a failed lookup leaves it unchanged, and a successful one sets its text to the table's non-empty text for that key |
| Translation.TranslateAll | opportunity_connect/script.js:34-39 | every element keeps its key; its text becomes the table's text when the lookup succeeds, and stays the same otherwise |
| Translation.ChangeLanguage | opportunity_connect/script.js:33-39 | the loop updates the elements in place to exactly the translated sequence |
| Translation.UnknownLanguageChangesNothing | opportunity_connect/script.js:36 | a language missing from the table leaves every element as it was |
| Translation.SwitchIdempotent | opportunity_connect/script.js:33-39 | switching to a language twice is the same as switching once |
| Translation.LaterLanguageWins | opportunity_connect/script.js:33-39 | after two switches, an element shows the second language's text where it has one, and otherwise the first switch's result |
| Forms.LastValueStep | opportunity_connect/script.js:356-358 | assigning a later entry keeps every name mapped to its last value |
| Forms.SubmitProfile | opportunity_connect/script.js:348-360 | every name except `skills` maps to its last value; `skills` is absent when there was no skills entry, and is otherwise all skills values in document order |
| Forms.CollectEntries | opportunity_connect/script.js:551-556 | every name, `skills` included, maps to its last value, and no other key is present |
| Forms.HandleContactSubmit | opportunity_connect/script.js:548-571 | the message is refused exactly when the last name, email or message value is missing or empty; a sent message holds every name's last value; a refusal shows the generic error, and a send shows "Sending message..." and then "Message sent successfully!" |
| Forms.FilledIffLastFilled | opportunity_connect/script.js:559 | testing a field of the collected map is testing the last entry of that name |
| Forms.LastWriteWinsUnique | opportunity_connect/script.js:554-556 | only one map keeps the last value of every name |
| Forms.LastValueUnique | opportunity_connect/script.js:354-358 | the last entry of a name has a single value |
| Forms.ProfileUnique | opportunity_connect/script.js:353-360 | the profile built from the entries is determined by them |
| Forms.SubmissionExample | opportunity_connect/script.js:353-360 | a name "X" followed by skills "A" and "B" gives `name` "X" and the skills ["A", "B"] in order |
| Wizard.ProfileWizard.constructor | opportunity_connect/script.js:3 | the wizard starts at step 1 |
| Wizard.ProfileWizard.NextStep | opportunity_connect/script.js:264-269 | moves forward one step below step 3, stays at step 3, and keeps the step in 1..3 |
| Wizard.ProfileWizard.PrevStep | opportunity_connect/script.js:271-276 | moves back one step above step 1, stays at step 1, and keeps the step in 1..3 |
| Wizard.StepComplete | opportunity_connect/script.js:317-346 | the specification of a passing check: the step's element exists, no required value is blank, and step 2 has a checked skill; `ValidateCurrentStep` and `ClickNext` are proved against it |
| Wizard.FlagsMatch | opportunity_connect/script.js:321-331 | the flags computed by a test have one entry per value, each set exactly when the test holds, and none set exactly when it holds for no value |
| Wizard.FlagBlanks | opportunity_connect/script.js:321-331 | the `forEach` over a step's required values, with the blank test as its callback, computes the test's flag for each value in order and is valid exactly when no flag is set |
| Wizard.ProfileWizard.View | opportunity_connect/script.js:278-315 | the indicator is the step; the progress is (step / 3) * 100 percent, so positive, at most 100 and 100 exactly on the submit step; exactly one panel, the current step's, is active; Previous shows iff step > 1, Next iff step < 3, Submit iff step == 3 |
| Wizard.ProfileWizard.ValidateCurrentStep | opportunity_connect/script.js:317-346 | true exactly when the step's element exists, no required value is blank after trimming, and step 2 has a checked skill; a field is outlined exactly when it is blank; the skill message and the generic message are shown in that order when they apply |
| Wizard.ProfileWizard.ClickNext | opportunity_connect/script.js:235-240 | validates the step with the same verdict, outlines and messages as the check, and advances exactly when it is complete and not the last step |
| Wizard.ProfileWizard.ClickSubmit | opportunity_connect/script.js:253-258 | a profile is built exactly when the step is complete, and then it is the fold of the entries; when the step's element is missing nothing is outlined and no message is shown; otherwise each blank required field is outlined, and the messages are the skill message when step 2 lacks a skill, then "Profile created successfully!" on success or the generic error on failure |
| Wizard.FailedStepShowsGeneralMessage | opportunity_connect/script.js:335-343 | after a failed check the screen holds only the generic message, even when the skill message was shown first |
| Scoring.MatchCount | opportunity_connect/script.js:448-452 | at most the number of posting skills |
| Scoring.LocationBonus | opportunity_connect/script.js:455 | the bonus needs a non-empty profile location no longer than the posting's |
| Scoring.LocationOf | opportunity_connect/script.js:455 | `profile.location`, with a missing field read as the empty string, which earns no bonus |
| Scoring.ScoreOf | opportunity_connect/script.js:446-460 | the score formula that `Scoring.ScorePosting` and `Recommend.ScoreAll` are proved against; its bounds are `Scoring.ScoreBounds` |
| Scoring.ScorePosting | opportunity_connect/script.js:446-460 | the posting is unchanged, and the score is two per posting skill the profile lists plus one for a location match |
| Scoring.ScoreBounds | opportunity_connect/script.js:446-460 | a score lies between 0 and twice the number of skills plus one, and is odd exactly when the location matched |
| Scoring.AllSkillsMatch | opportunity_connect/script.js:448-452 | the match count reaches the number of posting skills exactly when the profile lists every one of them |
| Scoring.MatchCountIsIntersection | opportunity_connect/script.js:448-452 | for a posting without repeated skills, the match count is the size of the intersection of the two skill sets |
| Scoring.IntersectAddOne | opportunity_connect/script.js:448-452 | adding a new skill to a posting grows the intersection by one exactly when the profile lists it |
| Scoring.DistinctSnoc | opportunity_connect/script.js:448 | removing the last skill keeps the skills distinct and removes exactly that skill from the set |
| Scoring.CapitalizedLocationNeverMatches | opportunity_connect/script.js:455 | a profile location holding a capital letter never earns the location bonus |
| Ranking.Insert | opportunity_connect/script.js:463 | inserting adds exactly one element |
| Ranking.InsertionSorted | opportunity_connect/script.js:463 | sorting keeps the length |
| Ranking.SortByScore | opportunity_connect/script.js:463 | the in-place sort leaves the array holding the insertion-sorted order of its old contents |
| Ranking.InsertAt | opportunity_connect/script.js:463 | one pass inserts the element at `i` into the prefix before it and leaves the rest of the array unchanged |
| Ranking.ShiftedLayout | opportunity_connect/script.js:463 | after a pass the prefix is the untouched part, then the inserted element, then the shifted part |
| Ranking.InsertionPoint | opportunity_connect/script.js:463 | insertion stops after the last element scoring at least as much, and before a run of lower scores |
| Ranking.WithScoreConcat | opportunity_connect/script.js:463 | the postings of one score in a concatenation are those of each part, in order |
| Ranking.InsertWithScore | opportunity_connect/script.js:463 | insertion appends the element to its own score class and leaves the other classes unchanged |
| Ranking.InsertPermutes | opportunity_connect/script.js:463 | insertion adds exactly the element to the multiset |
| Ranking.InsertNonIncreasing | opportunity_connect/script.js:463 | inserting into a non-increasing order yields a non-increasing order |
| Ranking.SortedIsOrderedPermutation | opportunity_connect/script.js:463 | the sorted order is non-increasing and a permutation of the input |
| Ranking.SortedIsStable | opportunity_connect/script.js:463 | within each score, the sorted order keeps the input order |
| Ranking.WithScoreMembers | opportunity_connect/script.js:463 | a score class holds exactly the input's elements of that score |
| Ranking.SameClassesSameEmptiness | opportunity_connect/script.js:463 | two sequences with the same score classes are both empty or both non-empty |
| Ranking.LastScoresLeast | opportunity_connect/script.js:463 | the last element of a non-increasing order has the least score |
| Ranking.SameLast | opportunity_connect/script.js:463 | two non-empty non-increasing orders with the same score classes end in the same element |
| Ranking.StableOrderUnique | opportunity_connect/script.js:463 | two non-increasing orders with the same score classes are equal |
| Ranking.AnyStableSortAgrees | opportunity_connect/script.js:463 | every stable descending sort of the scored postings gives the insertion-sorted order |
| Ranking.TopOfSortedIsBest | opportunity_connect/script.js:463 | the first k of the sorted order are non-increasing, drawn from the input, and score at least as much as every posting left out |
| Ranking.PrefixOfOrdered | opportunity_connect/script.js:463 | a prefix of a non-increasing order is non-increasing, part of it, and outscores the rest |
| Ranking.TopOfSortedIsStable | opportunity_connect/script.js:463 | within each score, the first k of the sorted order are the first postings of that score in the input |
| Recommend.TopCount | opportunity_connect/script.js:441-463 | `slice(0, 3)` keeps three entries, or all of them when there are fewer |
| Recommend.Unpersonalised | opportunity_connect/script.js:441 | `!profile \|\| !profile.skills`: no profile, or a profile without skills; `Recommend.Recommended` falls back to the catalog exactly then |
| Recommend.ScoreAll | opportunity_connect/script.js:446-461 | one scored entry per posting, in catalog order, each carrying its posting and the formula's score for the profile's skills and location |
| Recommend.Recommended | opportunity_connect/script.js:441-463 | unscored postings exactly when there is no profile or it has no skills; the result has min(3, catalog size) entries |
| Recommend.GenerateRecommendations | opportunity_connect/script.js:392-464 | scoring into an array and sorting it in place gives exactly the recommended result |
| Recommend.FallbackIsCatalogPrefix | opportunity_connect/script.js:441-443 | without a profile with skills, the result is the start of the catalog |
| Recommend.MatchedIsStableTop | opportunity_connect/script.js:446-463 | with skills, the result is a prefix of a permutation of the scored catalog: scores non-increasing, no posting left out outscores a kept one, and ties keep catalog order |
| Recommend.MatchedScores | opportunity_connect/script.js:446-463 | every recommended entry is a catalog posting carrying the score the formula gives it |
| Recommend.MumbaiPostingScoresThree | opportunity_connect/script.js:446-460 | with skills JavaScript and Excel and location "mumbai", the Mumbai posting matches one skill and earns the location bonus: 3 points |
| Recommend.ExcelPostingScoresTwo | opportunity_connect/script.js:446-460 | the same profile matches one skill of the data-entry posting in Delhi and not its location: 2 points |
| Recommend.MarketingPostingScoresZero | opportunity_connect/script.js:446-460 | the same profile matches no skill and not the location of the marketing posting: 0 points |
| Recommend.WritingPostingScoresZero | opportunity_connect/script.js:446-460 | the same profile matches no skill and not the location of the remote writing posting: 0 points |
| Recommend.NoBonusWithout | opportunity_connect/script.js:455 | a profile location holding a letter that the posting location lacks in both cases earns no bonus |
| Recommend.MatchCountOfThree | opportunity_connect/script.js:448-452 | for three posting skills, the match count is one per skill the profile lists |
| Recommend.SortExample | opportunity_connect/script.js:463 | scores 3, 0, 2, 0 sort as the first, the third, the second, then the fourth |
| Recommend.ExampleScores | opportunity_connect/script.js:393-460 | the example profile scores the catalog 3, 0, 2 and 0 |
| Recommend.TopThreeOfFour | opportunity_connect/script.js:463 | four postings scoring 3, 0, 2 and 0 are recommended as the first, the third and the second |
| Recommend.CatalogExample | opportunity_connect/script.js:392-464 | for the example profile the recommendations are the Mumbai posting (3), the data-entry posting (2) and the marketing posting (0), which comes before the equally scored writing posting |

## Left out

- DOM work is not modelled: element lookup, class toggling, inline styles, card templates, the mobile menu, smooth scrolling, the skill checkbox toggling and the injected CSS. Each step's required-field values and checked-skill count are parameters instead.
- `localStorage` and `JSON.stringify`/`JSON.parse` are browser APIs. The saved profile is the value returned, and the language preference is not stored.
- Timers are not modelled: the redirect after submitting a profile, the delay before "Message sent successfully!" and the auto-dismiss of messages. Only the order of the messages is kept, with the delayed one last.
- `showMessage` styling and element creation are not modelled. `Notices.Show` keeps only the removal of the message on screen and the appending of the new one.
- `filterInternships` and `loadAllInternships` are empty in the source, so they have nothing to model.
- The language table is a parameter. Its contents and `currentLanguage` are not part of this model, and neither is the language selector's value.
- Strings.ToLower: lower-cases only the letters A to Z. `toLowerCase` also maps non-ASCII capitals, which the catalog's locations do not contain.
- JavaScript strings are sequences of UTF-16 code units, while Dafny strings are sequences of characters. Text outside the Basic Multilingual Plane is therefore counted differently.
- The records are maps. Keys that collide with object prototype properties, such as `__proto__` or `constructor`, are not treated specially. This holds for the form records and for the translation table alike: `translations[lang]` and `translations[lang][key]` are plain map lookups here, while in the browser `translations['constructor']` is truthy. `File` values in `FormData` are not modelled.
- Wizard.ProfileWizard.View: models the progress bar's width as a real number of percent. It is not the formatted CSS string.
- The catalog is passed to `Recommend.GenerateRecommendations` as a parameter. `Recommend.Catalog` holds the source's four postings and is used by the worked example.
