# Veterinary anaesthesia compass — verified model of the application core

This project models the logic of a single-page veterinary anaesthesia study
aid in Dafny and proves properties about it. The aid has these parts:

- a catalogue of anaesthesia topics with subtopics;
- a drug reference with dosages per species;
- a glossary;
- quizzes and clinical cases;
- a global search dialog opened with Ctrl+K / Cmd+K;
- favourite drugs and user preferences kept in browser storage.

The model covers the decision logic of these parts:

- the search and its ten-result cap;
- the search dialog's keyboard state machine;
- the list filters of the drug reference, the glossary and the home page;
- every expand/collapse toggle;
- the favourites and settings stores with their storage item;
- the quiz's state machine, score and feedback;
- the topic page's route parsing and lookup.

Layout, one module per source file plus shared modules:

- `Wrappers`: `Option`.
- `Lists`: filtering, removal, toggling, de-duplication, subsequences.
- `Text`: the JavaScript string operations the sources use.
- `Content`: topic, subtopic, drug and dosage records.
- `Accordion`: the `open === id ? null : id` rule, which three components share.
- `SearchEngine` (src/hooks/useSearch.ts), with worked examples in `SearchExamples`.
- `GlobalSearch` (src/components/GlobalSearch.tsx).
- `Pharmaceuticals` (src/components/Pharmaceuticals.tsx).
- `DrugList` (src/components/pharmaceuticals/DrugList.tsx).
- `Terminology` (src/components/Terminology.tsx).
- `IndexPage` (src/pages/Index.tsx).
- `Favorites` (src/hooks/useDrugFavorites.tsx).
- `UserSettings` (src/hooks/useUserSettings.tsx).
- `Quiz` (src/components/QuizSection.tsx).
- `TopicDetail` (src/pages/TopicDetail.tsx).
- `CaseStudy` (src/components/CaseStudy.tsx).

Code that computes a value is modelled as functions and lemmas. Component
state that handlers update is modelled as a class:

- the class's fields are the component's state variables;
- each handler is a method whose postcondition ties the new state to a pure
  transition function;
- the properties are proved about those functions.

The search is the one loop in the core. `SearchEngine.PerformSearch` keeps
the loops and is proved equal to the specification function
`SearchEngine.Search`.

JavaScript semantics are modelled explicitly:

- `toLowerCase` is a Latin-1 case fold.
- `trim()` emptiness uses the ECMAScript white-space and line-terminator set.
- `includes("")` is true.
- `substring(0, 60)` takes a prefix.
- `join(' ')` joins with single spaces.
- `toString` and `parseInt` are written out, including `parseInt`'s sign and `0x` prefix.
- Truthiness: `null` and `""` both mean "no filter", and `id || '1'` treats an empty parameter as missing.
- `Math.round` is round-half-up in exact arithmetic.

## Model

| member | source | states |
|---|---|---|
| SearchEngine.Search | src/hooks/useSearch.ts:21-79 | A blank (after trimming) term gives no results. The result is never longer than ten. It is the front of the full traversal: all of it when the traversal has at most ten hits, otherwise its first ten. |
| SearchEngine.PerformSearch | src/hooks/useSearch.ts:21-79 | The loop over topics, subtopics and drugs returns exactly `Search(term, topics, drugs)`. |
| SearchEngine.PushTopicHits | src/hooks/useSearch.ts:31-60 | One topic's iteration appends its own hit (when its title or description matches) and then its matching subtopics' hits, in index order. |
| SearchEngine.SearchOrder | src/hooks/useSearch.ts:30-76 | In every result list, no topic or subtopic hit comes after a drug hit. |
| SearchEngine.TraversalOrder | src/hooks/useSearch.ts:30-76 | In the uncapped traversal, all topic and subtopic hits come before all drug hits. |
| SearchEngine.MatchingSubtopics | src/hooks/useSearch.ts:45-59 | The indices of matching subtopics, strictly increasing: every listed index matches and every matching index is listed. |
| SearchEngine.SubtopicHitsInIndexOrder | src/hooks/useSearch.ts:45-59 | A topic's subtopic hits are exactly the hits of its matching subtopics, in index order. |
| SearchEngine.TraversalLength | src/hooks/useSearch.ts:30-76 | The traversal has at most one hit per topic, per subtopic and per drug. |
| SearchEngine.SearchKeepsEveryHitWhenFew | src/hooks/useSearch.ts:78 | When topics, subtopics and drugs number at most ten in total, the cap removes nothing. |
| SearchEngine.SearchSound | src/hooks/useSearch.ts:30-76 | Every result is the hit of a topic, subtopic or drug that matches the lowered term. |
| SearchEngine.TraversalComplete | src/hooks/useSearch.ts:30-76 | Every matching topic, subtopic and drug has its hit in the traversal, so it is listed unless the cap cuts it off. |
| SearchEngine.SearchWellShaped | src/hooks/useSearch.ts:34-74 | A topic hit links to `/topic/<id>` and has no parent. A subtopic hit links to `/topic/<id>#<index>`, has id `<id>-<index>` and has the topic as its parent. A drug hit links to `/#pharmaceuticals-<id>`. |
| SearchEngine.TopicHit | src/hooks/useSearch.ts:34-41 | A topic hit has the topic kind, no parent, the topic's title, and the path `/topic/` followed by its own id. |
| SearchEngine.SubtopicHit | src/hooks/useSearch.ts:49-57 | A subtopic hit has the subtopic kind, the subtopic's title, its topic's id as parent, and the path `/topic/<parent>#<index>`. |
| SearchEngine.DrugHit | src/hooks/useSearch.ts:67-74 | A drug hit has the drug kind, the drug's id and name, no parent, and the path `/#pharmaceuticals-<id>`. |
| SearchEngine.DrugSummary | src/hooks/useSearch.ts:71 | The summary starts with the class, ends with "...", and is between 6 and 66 characters longer than the class. |
| SearchEngine.TopicHits | src/hooks/useSearch.ts:31-60 | One topic yields at most one hit for itself and one per subtopic, and its list starts with a topic hit exactly when the topic matches. |
| SearchEngine.TopicHitsComplete | src/hooks/useSearch.ts:31-60 | A matching topic has its own hit among its hits, and so has each of its matching subtopics. |
| SearchEngine.DrugSummaryShape | src/hooks/useSearch.ts:71 | The drug description is the class, " - ", at most sixty characters of the description, and "..." even when nothing was cut. |
| SearchEngine.TopicsPassKinds | src/hooks/useSearch.ts:31-60 | The topic pass yields only topic and subtopic hits. |
| SearchEngine.DrugsPassKinds | src/hooks/useSearch.ts:63-76 | The drug pass yields only drug hits. |
| SearchExamples.TopicTitleQuery | src/hooks/useSearch.ts:32-41 | "fluid" finds the topic "Fluidoterapia", and its hit links to `/topic/1`. |
| SearchExamples.QueryIsNotTrimmed | src/hooks/useSearch.ts:22-27 | Trimming only decides blankness. " fluid" keeps its leading space and no longer matches "Fluidoterapia". |
| SearchExamples.MatchAcrossJoinedEntries | src/hooks/useSearch.ts:46-48 | A query can straddle two adjacent content entries joined by a space and match neither entry alone. |
| SearchExamples.ShortDescriptionStillGetsEllipsis | src/hooks/useSearch.ts:71 | A short drug description still gets "...". |
| SearchExamples.PropofolQuery | src/hooks/useSearch.ts:21-79 | "propofol" lists the subtopic that mentions it and the drug, and the drug hit comes last. |
| SearchExamples.PropofolHitShape | src/hooks/useSearch.ts:67-73 | The propofol drug hit links to its anchor and its description starts with its class. |
| GlobalSearch.WindowKeyDown | src/components/GlobalSearch.tsx:36-41 | The dialog opens exactly on Ctrl+K or Cmd+K. Nothing else changes. |
| GlobalSearch.StepDown | src/components/GlobalSearch.tsx:113-117 | ArrowDown moves at most one step, moves exactly when not on the last result, and stays in range. |
| GlobalSearch.StepUp | src/components/GlobalSearch.tsx:118-122 | ArrowUp moves at most one step, moves exactly when above the first result, and never returns to -1 from a selected result. |
| GlobalSearch.InputKeyDown | src/components/GlobalSearch.tsx:112-129 | Escape closes the dialog. The arrows change only the index. Enter with no selection does nothing. Enter on a listed result navigates to it and closes the dialog. Enter with an index past the end raises the TypeError. |
| GlobalSearch.ChooseResult | src/components/GlobalSearch.tsx:131-135 | Choosing a result navigates to its path, closes the dialog and empties the term and results. The index is kept. |
| GlobalSearch.EditTerm | src/components/GlobalSearch.tsx:53-110 | Typing sets the term, resets the index to -1 and lists the results of the new term. |
| GlobalSearch.ClearInput | src/components/GlobalSearch.tsx:182-186 | The X button empties the term and the results but keeps the index. |
| GlobalSearch.ArrowKeysKeepIndexInRange | src/components/GlobalSearch.tsx:112-122 | The arrow keys keep the selected index in range. |
| GlobalSearch.StepKeepsConsistency | src/components/GlobalSearch.tsx:36-186 | Every event other than the X button, choosing a result and Enter keeps the index in range and the results current. None of them raises an error. |
| GlobalSearch.Step | src/components/GlobalSearch.tsx:36-186 | An event from a control that is not on screen changes nothing: the input, the results and the X button exist only in the open dialog, and the X button only while the term is non-empty. Only the open dialog navigates or raises an error, and a navigation leaves the dialog closed with an empty term. |
| GlobalSearch.ClearLeavesStaleIndex | src/components/GlobalSearch.tsx:182-186 | In the open dialog with a result highlighted, the X button leaves the index out of range, the dialog stays open, and Enter then raises the TypeError. |
| GlobalSearch.ReopenAfterChoosingCrashes | src/components/GlobalSearch.tsx:123-135 | Choosing with Enter, reopening with Ctrl+K and pressing Enter raises the TypeError, when the dialog stays mounted across the navigation. |
| GlobalSearch.StepFixedKeepsConsistency | src/components/GlobalSearch.tsx:112-186 | With the index reset on clearing and on choosing, every event keeps the dialog consistent and never raises the TypeError. |
| GlobalSearch.ClearInputFixed | src/components/GlobalSearch.tsx:182-186 | The corrected X button empties the term and leaves the dialog consistent. |
| GlobalSearch.ChooseResultFixed | src/components/GlobalSearch.tsx:131-135 | The corrected choice navigates, closes and leaves the dialog consistent. |
| GlobalSearch.InitialConsistent | src/components/GlobalSearch.tsx:28-31 | The dialog starts closed, with an empty term, no results and index -1, which is consistent. |
| GlobalSearch.Dialog.HandleKeyDown | src/components/GlobalSearch.tsx:112-129 | The handler makes the `InputKeyDown` transition and returns its effect. |
| GlobalSearch.Dialog.HandleResultClick | src/components/GlobalSearch.tsx:131-135 | The handler makes the `ChooseResult` transition. |
| GlobalSearch.Dialog.OnInputChange | src/components/GlobalSearch.tsx:176-179 | The handler makes the `EditTerm` transition. |
| GlobalSearch.Dialog.OnClearClick | src/components/GlobalSearch.tsx:183-186 | The handler makes the `ClearInput` transition. |
| GlobalSearch.Dialog.OnWindowKeyDown | src/components/GlobalSearch.tsx:36-41 | The handler makes the `WindowKeyDown` transition. |
| GlobalSearch.Dialog.OnOpenChange | src/components/GlobalSearch.tsx:151 | The dialog's open flag follows the request and nothing else changes. |
| GlobalSearch.Dialog.RefreshResults | src/components/GlobalSearch.tsx:53-110 | The results become the search of the current term. |
| Accordion.Toggle | src/pages/Index.tsx:17-23 | After a click the item is open exactly when it was closed. At most that item is open. |
| Accordion.AtMostOneOpen | src/pages/Index.tsx:10 | One nullable id is open at a time: two open items are the same item. |
| Accordion.ToggleTwiceFromClosed | src/pages/Index.tsx:17-23 | From the closed state, two clicks on the same item close it again. |
| Pharmaceuticals.FilteredDrugs | src/components/Pharmaceuticals.tsx:41-48 | The shown drugs are exactly the listed drugs that pass the text, class and species tests, in list order. With a class selected, all shown drugs have that class. |
| Pharmaceuticals.NoFilterKeepsEveryDrug | src/components/Pharmaceuticals.tsx:41-48 | An empty term with no class and no species shows every drug. |
| Pharmaceuticals.ClassTextIgnoredBySearch | src/components/Pharmaceuticals.tsx:42-43 | The text search reads only the name and description, never the class. |
| Pharmaceuticals.EmptyFilterValueIsNoFilter | src/components/Pharmaceuticals.tsx:44-45 | An empty-string class or species filter behaves exactly like no filter. |
| Pharmaceuticals.DrugClasses | src/components/Pharmaceuticals.tsx:39 | Every drug's class appears exactly once, in order of first appearance, and no other string appears. |
| Pharmaceuticals.PharmaceuticalsView.ResetFilters | src/components/Pharmaceuticals.tsx:50-54 | The term, class and species are cleared, so every drug is shown again. The expanded drug is kept. |
| Pharmaceuticals.PharmaceuticalsView.constructor | src/components/Pharmaceuticals.tsx:34-37 | Filters start empty, no drug is expanded and every drug is shown. |
| Pharmaceuticals.PharmaceuticalsView.SetSearchTerm | src/components/Pharmaceuticals.tsx:34 | Only the search term changes, and the shown drugs become the filter of the new term with the other two filters kept. |
| Pharmaceuticals.PharmaceuticalsView.SetSelectedClass | src/components/Pharmaceuticals.tsx:35 | Only the class filter changes, and the shown drugs become the filter with the new class. |
| Pharmaceuticals.PharmaceuticalsView.SetSelectedSpecies | src/components/Pharmaceuticals.tsx:36 | Only the species filter changes, and the shown drugs become the filter with the new species. |
| Pharmaceuticals.PharmaceuticalsView.SetExpandedDrugId | src/components/Pharmaceuticals.tsx:37 | Only the expanded drug changes, to the given id or none; the filters and the shown drugs stay. |
| DrugList.Render | src/components/pharmaceuticals/DrugList.tsx:20-34 | An empty list renders the empty state. Otherwise there is one item per drug, in order, expanded exactly when its id is the expanded id. |
| DrugList.OnToggleExpand | src/components/pharmaceuticals/DrugList.tsx:31 | Clicking the expanded drug collapses it. Clicking any other drug expands that drug. |
| DrugList.AtMostOneExpanded | src/components/pharmaceuticals/DrugList.tsx:26-31 | With distinct ids, at most one item is expanded. |
| Terminology.FilteredTerms | src/components/Terminology.tsx:32-37 | The shown terms are exactly the glossary terms whose term or definition contains the lowered query and that pass the category filter, in glossary order. |
| Terminology.NoFilterKeepsEveryTerm | src/components/Terminology.tsx:26-37 | The initial state lists the whole glossary. |
| Terminology.CategoryNarrowsSearch | src/components/Terminology.tsx:32-37 | A category filter only removes terms from the search's list. Every remaining term has that category. |
| Terminology.Categories | src/components/Terminology.tsx:30 | Every category appears exactly once, in order of first appearance. |
| Terminology.Glossary.ToggleBookmark | src/components/Terminology.tsx:39-43 | A bookmarked id is removed and any other id is appended. No other bookmark changes. The count changes by one and there are never duplicates. |
| Terminology.Glossary.SetSearchTerm | src/components/Terminology.tsx:73 | Only the search text changes, and the shown terms become the filter of the new text with the category kept. |
| Terminology.Glossary.SetFilter | src/components/Terminology.tsx:81-92 | Only the category changes (null for "all"), and the shown terms become the filter with the new category. |
| Lists.Toggled | src/components/Terminology.tsx:41 | After the toggle the element is present exactly when it was absent. Other elements stay. An absent element is appended at the end. |
| Lists.ToggleTwiceRestores | src/hooks/useDrugFavorites.tsx:40-48 | Toggling an absent element twice restores the list exactly. |
| Lists.ToggledLength | src/components/Terminology.tsx:41 | On a duplicate-free list the toggle changes the length by exactly one. |
| Lists.ToggledNoDuplicates | src/components/Terminology.tsx:41 | The toggle keeps a list duplicate-free. |
| Lists.RemoveAll | src/hooks/useDrugFavorites.tsx:41 | The filter removes every occurrence of the id and keeps everything else. |
| Lists.Dedup | src/components/Pharmaceuticals.tsx:39 | `Array.from(new Set(xs))` has the same members as `xs`. |
| Lists.DedupNoDuplicates | src/components/Terminology.tsx:30 | The de-duplicated list has no repeats. |
| Lists.DedupFirstAppearanceOrder | src/components/Terminology.tsx:30 | The de-duplicated list is ordered by first appearance. |
| Lists.Filter | src/pages/Index.tsx:12-15 | The filtered list is no longer than the original and keeps exactly the elements that pass. |
| Lists.FilterIsSubsequence | src/pages/Index.tsx:12-15 | Filtering keeps the original order. |
| Lists.FilterCounts | src/pages/Index.tsx:12-15 | Filtering keeps every occurrence of an element that passes and none of one that fails. |
| IndexPage.FilteredTopics | src/pages/Index.tsx:12-15 | A card is shown exactly for the topics whose title or description contains the lowered term, in catalogue order. |
| IndexPage.EmptySearchShowsEveryTopic | src/pages/Index.tsx:9-15 | An empty search box shows every topic. |
| IndexPage.CardsAgreeWithSearch | src/pages/Index.tsx:12-15 | A catalogue topic has a card exactly when the global search's topic pass lists that topic's own hit. |
| IndexPage.HomePage.ToggleSection | src/pages/Index.tsx:17-23 | The section is open after the click exactly when it was closed, and only it can be open. |
| IndexPage.HomePage.SetSearchTerm | src/pages/Index.tsx:59 | Only the search text changes, and the shown cards become the topics that match the new text. |
| Favorites.Loaded | src/hooks/useDrugFavorites.tsx:11-18 | Mounting on a missing item keeps the list. An unparsable item empties it. A parsed item replaces it. |
| Favorites.Synced | src/hooks/useDrugFavorites.tsx:22-30 | Only a parsed new value of "favoriteDrugs" replaces the list. Other keys, removals and unparsable values change nothing. |
| Favorites.LoadedInStep | src/hooks/useDrugFavorites.tsx:11-18 | After mounting on a readable item, the list agrees with storage. |
| Favorites.ClearInOtherTabLeavesStale | src/hooks/useDrugFavorites.tsx:23-30 | After another tab clears the favourites, this tab keeps its list while the item is gone. Its next toggle writes the stale list back. |
| Favorites.SyncedFixed | src/hooks/useDrugFavorites.tsx:23-30 | The corrected listener empties the list when the item is removed. |
| Favorites.SyncedFixedInStep | src/hooks/useDrugFavorites.tsx:23-30 | With the correction, every readable storage event leaves the list in step with storage. |
| Favorites.FavoritesStore.ToggleFavorite | src/hooks/useDrugFavorites.tsx:37-60 | The id leaves the list if present and is appended otherwise, so `isFavorite` of the id flips. The new list is stored. The toast says "removed" exactly when the id was present. |
| Favorites.FavoritesStore.ClearAllFavorites | src/hooks/useDrugFavorites.tsx:62-70 | The list is emptied and the item removed. |
| Favorites.FavoritesStore.IsFavorite | src/hooks/useDrugFavorites.tsx:72-74 | A drug is a favourite exactly when some entry of the list is its id. With no favourites, no drug is one. |
| Favorites.FavoritesStore.Load | src/hooks/useDrugFavorites.tsx:11-18 | The mount effect makes the `Loaded` transition. |
| Favorites.FavoritesStore.OnStorageEvent | src/hooks/useDrugFavorites.tsx:22-30 | The listener makes the `Synced` transition. The shared item takes the event's value for this key. |
| Favorites.FavoritesStore.GetFavoriteCount | src/hooks/useDrugFavorites.tsx:76-78 | The count is the length of the list. |
| Favorites.FavoritesStore.GetFavoriteDrugIds | src/hooks/useDrugFavorites.tsx:80-82 | The ids are the list, in order. |
| Favorites.StarTwice | src/hooks/useDrugFavorites.tsx:11-60 | From any stored item, including a missing or unparsable one, starring then unstarring a drug leaves it out of the favourites, shows "added" then "removed", restores a stored list and stores the result. |
| UserSettings.MergeKeys | src/hooks/useUserSettings.tsx:46-48 | `{...prev, ...partial}`: the keys the update has take its values and every other key keeps its value. |
| UserSettings.Merge | src/hooks/useUserSettings.tsx:47 | `{...prev, ...partial}`: an update without keys changes nothing, and the merged settings, seen as an object, are the update spread over the previous settings. |
| UserSettings.MergeNoKeys | src/hooks/useUserSettings.tsx:46-48 | An update without keys changes nothing. |
| UserSettings.MergeIdempotent | src/hooks/useUserSettings.tsx:46-48 | Repeating an update changes nothing more. |
| UserSettings.MergeTwice | src/hooks/useUserSettings.tsx:46-48 | Two updates are one update in which the later keys win. |
| UserSettings.SaveThenLoadRoundTrip | src/hooks/useUserSettings.tsx:25-43 | Settings written to storage are read back unchanged by the next mount, which starts from the defaults. |
| UserSettings.FullRecordOverridesAll | src/hooks/useUserSettings.tsx:29 | A stored record with every key decides the settings, except for a `lastVisited` it lacks. |
| UserSettings.LastVisitedIsAnUpdate | src/hooks/useUserSettings.tsx:54-56 | `updateLastVisited` is the update that sets only `lastVisited`. |
| UserSettings.Loaded | src/hooks/useUserSettings.tsx:25-33 | A parsed item is merged over the current settings. A missing or unparsable item changes nothing. |
| UserSettings.SettingsStore.Load | src/hooks/useUserSettings.tsx:23-44 | The mount merges the stored record and marks loading done even on a parse failure. The save effect then writes the settings. |
| UserSettings.SettingsStore.Persist | src/hooks/useUserSettings.tsx:38-44 | The save effect writes the settings only once loading is done. |
| UserSettings.SettingsStore.UpdateSettings | src/hooks/useUserSettings.tsx:46-48 | The settings become the merge, and are stored only once loaded. |
| UserSettings.SettingsStore.ResetSettings | src/hooks/useUserSettings.tsx:50-52 | The settings become the defaults, which have no `lastVisited`. |
| UserSettings.SettingsStore.UpdateLastVisited | src/hooks/useUserSettings.tsx:54-56 | Only `lastVisited` changes. |
| UserSettings.SettingsStore.constructor | src/hooks/useUserSettings.tsx:12-21 | The first render has the defaults (system theme, medium font, favourites hidden, list view), is not loaded and writes nothing. |
| UserSettings.MountOnCorruptItem | src/hooks/useUserSettings.tsx:23-44 | An unparsable item gives the defaults and loading done, and the item is overwritten with the defaults. |
| UserSettings.ReloadRestores | src/hooks/useUserSettings.tsx:23-44 | A mount on saved settings restores exactly those settings. |
| Quiz.SelectOption | src/components/QuizSection.tsx:30-33 | Selecting is ignored once the answer is shown and otherwise records the option. |
| Quiz.QuizSection.HandleOptionSelect | src/components/QuizSection.tsx:30-33 | The handler makes the `SelectOption` transition. |
| Quiz.CheckAnswer | src/components/QuizSection.tsx:35-49 | Without a selection nothing changes. Otherwise the answer is shown and the count rises by one exactly when the option is the correct one. |
| Quiz.NextQuestion | src/components/QuizSection.tsx:51-59 | The next question starts with no selection and a hidden answer. After the last question the quiz completes. |
| Quiz.QuizSection.NextQuestionClick | src/components/QuizSection.tsx:51-59 | The handler makes the `NextQuestion` transition. |
| Quiz.Step | src/components/QuizSection.tsx:30-67 | Except for a restart, one click moves at most one question forward and adds at most one correct answer, and never goes back. |
| Quiz.Run | src/components/QuizSection.tsx:30-67 | A sequence of clicks from a valid state ends in a valid state: question index in range, correct answers at most the answers given, completion only on the last question with its answer shown. |
| Quiz.StepKeepsValid | src/components/QuizSection.tsx:23-67 | Every click keeps the question index in range and keeps correct answers at most the answers given. The quiz completes only on the last question with its answer shown. |
| Quiz.RunKeepsValid | src/components/QuizSection.tsx:23-230 | After any sequence of clicks, a completed quiz has answered every question and scored at most one point per question. |
| Quiz.ScoreIsRoundedPercentage | src/components/QuizSection.tsx:69-71 | The score is the percentage of correct answers rounded to the nearest integer, with halves rounded up. |
| Quiz.Score | src/components/QuizSection.tsx:69-71 | The score is never negative, and is at most 100 when the correct answers do not outnumber the questions. |
| Quiz.ScoreBounds | src/components/QuizSection.tsx:69-71 | The score lies in [0, 100]. All correct is 100 and none correct is 0. |
| Quiz.ScoreMonotone | src/components/QuizSection.tsx:69-71 | More correct answers never lower the score. |
| Quiz.FeedbackBands | src/components/QuizSection.tsx:73-79 | The messages cover the score bands 90 and above, 75-89, 60-74 and below 60. |
| Quiz.FeedbackFor | src/components/QuizSection.tsx:73-79 | The best message is given exactly from 90 up, and the worst exactly below 60. |
| Quiz.FeedbackMonotone | src/components/QuizSection.tsx:73-79 | A higher score never gets a worse message. |
| Quiz.BarMatchesFeedback | src/components/QuizSection.tsx:103-106 | The result bar is green for the two best messages, amber for the third and red for the last. |
| Quiz.QuizSection.FooterClick | src/components/QuizSection.tsx:216-230 | The footer checks the answer while it is hidden and moves on once it is shown, and the state stays valid. |
| Quiz.QuizSection.CheckAnswerClick | src/components/QuizSection.tsx:35-49 | The handler makes the `CheckAnswer` transition and warns exactly when nothing is selected. |
| Quiz.QuizSection.Result | src/components/QuizSection.tsx:81-114 | The completed view shows a score in [0, 100] and the message for it. |
| Quiz.QuizSection.ResetQuiz | src/components/QuizSection.tsx:61-67 | Restarting returns to the initial state. |
| TopicDetail.ParseIntRoundTrip | src/pages/TopicDetail.tsx:21 | `parseInt` reads back the decimal text of every integer. |
| TopicDetail.ParseInt | src/pages/TopicDetail.tsx:21 | Text that is blank is NaN, and a negative number comes only from a minus sign after the leading blanks. |
| TopicDetail.NatToStringInjective | src/pages/TopicDetail.tsx:135 | Distinct numbers have distinct decimal texts. |
| TopicDetail.TopicId | src/pages/TopicDetail.tsx:21 | `parseInt(id \|\| '1')`: a missing or empty route parameter opens topic 1. |
| TopicDetail.TopicIdLenient | src/pages/TopicDetail.tsx:21 | Leading blanks are skipped and trailing characters ignored: " 12abc" is 12. |
| TopicDetail.TopicIdHex | src/pages/TopicDetail.tsx:21 | "0x1A" is read in radix 16 as 26. |
| TopicDetail.TopicIdNaN | src/pages/TopicDetail.tsx:21-22 | A parameter without digits is NaN and shows the not-found page. |
| TopicDetail.FindIndex | src/pages/TopicDetail.tsx:22 | The first topic with the id, or none exactly when no topic has the id or the id is NaN. |
| TopicDetail.Route | src/pages/TopicDetail.tsx:21-61 | The page shows a catalogue topic whose id is the parsed parameter, or the not-found page exactly when there is none. |
| TopicDetail.RouteFindsTopicById | src/pages/TopicDetail.tsx:21-22 | With distinct ids, the route of a topic's own id shows that topic. |
| TopicDetail.SubtopicKeysDistinct | src/pages/TopicDetail.tsx:135 | Distinct subtopics have distinct `subtopic-<index>` keys. |
| TopicDetail.ToggleSubtopic | src/pages/TopicDetail.tsx:25-30 | The key is set to the negation of its entry, with a missing entry read as false. Every other entry is unchanged. |
| TopicDetail.IsExpanded | src/pages/TopicDetail.tsx:136 | A subtopic without an entry is shown open, and one with an entry is open exactly when the entry is true. |
| TopicDetail.ToggleSubtopicOnlyThatKey | src/pages/TopicDetail.tsx:25-30 | Toggling one subtopic leaves every other subtopic as shown. |
| TopicDetail.ToggleSubtopicFlipsRecorded | src/pages/TopicDetail.tsx:25-30 | Once a subtopic has an entry, each click flips whether it is shown open. |
| TopicDetail.FirstClickKeepsSubtopicOpen | src/pages/TopicDetail.tsx:25-30 | A subtopic is open before any click, still open after the first click and closed only after the second. |
| TopicDetail.ToggleSubtopicFixed | src/pages/TopicDetail.tsx:136 | The corrected toggle negates what is shown and changes no other entry. |
| TopicDetail.FixedClicksAlternate | src/pages/TopicDetail.tsx:136 | With the correction every click flips the subtopic, the first one included. |
| TopicDetail.TopicDetailPage.ToggleSubtopicAt | src/pages/TopicDetail.tsx:133-138 | A click on subtopic `index` makes the `ToggleSubtopic` transition on its key, and no other subtopic changes. |
| CaseStudy.CaseStudyView.ToggleStep | src/components/CaseStudy.tsx:80-84 | A click on one of the rendered steps opens it exactly when it was closed, and no other step is open. |
| CaseStudy.CaseStudyView.ToggleLearningPoints | src/components/CaseStudy.tsx:113 | The learning points flip between shown and hidden. |
| CaseStudy.CaseStudyView.constructor | src/components/CaseStudy.tsx:33-34 | All steps start closed and the learning points hidden. |
| CaseStudy.ClickTwice | src/components/CaseStudy.tsx:83-113 | Two clicks on a step close it again, and two clicks on the footer hide the learning points again. |

## Left out

- The debounce of the search hook (useSearch.ts lines 81-89): timing is not modelled, and the model searches on every term.
- Browser storage and JSON: the storage items are modelled by what parsing yields (missing, unparsable, parsed). JSON text is not modelled, and parsed values are taken to have the expected shape.
- UserSettings.Merge: a stored or partial object with keys whose value is `undefined`, or with keys outside the settings type, is not modelled.
- Toasts are modelled as returned notices. Navigation is a returned effect. Focus, `preventDefault`, the DOM and all styling are left out.
- The AI schema generator, the speech synthesis of the glossary, and the purely presentational components are left out.
- The static content tables are used only as the shape of the records. The examples use records written after them.
- Text.Lower: `toLowerCase` is modelled as a Latin-1 fold (A-Z and U+00C0-U+00DE except U+00D7). Other Unicode case mappings, and strings as UTF-16 code units, are not modelled.
- Quiz.Score: `Math.round` on a float is modelled in exact arithmetic. A quotient whose floating-point value falls just below an exact half may round down in the source.
- TopicDetail.ParseInt: numbers beyond the exact range of a double are not modelled.
- GlobalSearch: the dialog's own copy of the search calls `toLowerCase` on the subtopic content array (src/components/GlobalSearch.tsx:78) and reads a subtopic `id` that the records do not have. As written, that call throws a TypeError for any non-blank term that some subtopic title does not contain, and with the app's own topics that is every non-blank term, so the dialog never lists a result. The dialog is modelled over the search of src/hooks/useSearch.ts instead.
- GlobalSearch: the search effect is folded into every transition that sets the term.
- GlobalSearch.InputKeyDown: Escape only closes the dialog and leaves the term in place (src/components/GlobalSearch.tsx:126-128).
- Quiz.QuizSection.constructor requires a non-empty question list, because rendering reads the current question.
- DrugList.AtMostOneExpanded requires distinct drug ids, which the content tables have.

## Findings

| source | as written | input that shows it | evidently intended | confidence | as-written member | corrected member |
|---|---|---|---|---|---|---|
| src/components/GlobalSearch.tsx:131-135, 182-186 | Choosing a result and the X button leave `selectedIndex` unchanged while the results become empty. | With the dialog's search replaced by the search of src/hooks/useSearch.ts, as modelled (as written, the dialog's search throws first, see "## Left out"): type a term, highlight the first result with ArrowDown, click the X button and press Enter: `results[0]` is undefined and reading `path` throws. The same happens after choosing with Enter, reopening with Ctrl+K and pressing Enter, if the dialog stays mounted across the navigation; where it is mounted is not part of this model. | Reset the index to -1 whenever the term is cleared. | not executed | GlobalSearch.ReopenAfterChoosingCrashes, GlobalSearch.ClearLeavesStaleIndex | GlobalSearch.StepFixedKeepsConsistency, GlobalSearch.ClearInputFixed, GlobalSearch.ChooseResultFixed |
| src/hooks/useDrugFavorites.tsx:23-30 | The storage listener ignores an event whose new value is null, which is what clearing all favourites in another tab produces. | Tab B has ["ketamine"]. Tab A clears all favourites. Tab B still shows ketamine, and starring "propofol" in B stores ["ketamine", "propofol"]. | Cross-tab sync also empties the list on removal. | not executed | Favorites.ClearInOtherTabLeavesStale | Favorites.SyncedFixed, Favorites.SyncedFixedInStep |
| src/pages/TopicDetail.tsx:25-30, 136 | Subtopics are open when their entry is missing, but the toggle negates the missing entry as false and stores true. | Open any topic and click a subtopic header once: it stays open, and only the second click closes it. | Every click flips what is shown. | not executed | TopicDetail.FirstClickKeepsSubtopicOpen | TopicDetail.ToggleSubtopicFixed, TopicDetail.FixedClicksAlternate |
