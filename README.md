# DashboardMobileV2 core in Dafny

This project models the logic layer of the DashboardMobileV2 conference dashboard, a React Native app over the
UniDB table store. The app reads whole tables (events, speakers, feedbacks, tracks, event_tracks,
event_speakers) and joins them on the client. Its components then classify capacities, filter pickers
and format dates, times and initials. The model covers:

- **Hooks** (`useDashboard`, `useEvents`, `useEvent`, `useDashboardData`, `useSpeakers`, `useSpeaker`,
  `useFeedback`, `useTracks`). Each post-fetch pipeline is a function from the rows read to the state the
  hook sets.
  - Every read is an input: a `Payload` of rows, a non-array body, or a read that throws.
  - Where the hook fills a `Map` or object with a `forEach` loop, a method with that loop is proved equal
    to the function.
- **Capacity components** (`CapacityIndicator`, `edit/CapacityField`, `events/CapacityField`, `EventCard`,
  `SubscriptionsTable`). Each rule is a small decision table.
  - Every 80 % threshold is proved to equal integer cross-multiplication.
  - `CapacityCopies` puts the five copies of the available / nearly full / full rule side by side. They
    agree for a positive maximum and disagree without one.
- **Pickers** (`MultiSpeakerPicker`, `SpeakerPicker`, `DatePickerField`, `TimePickerField`). The `filtered`
  options are a pure function. The component state (`query`, `showDropdown`, `showPicker`) is a class
  whose methods are the handlers.
- **Formatting** (`DatePickerField`, `TimePickerField`, `SpeakerRow`). Format conformance, the `YYYY-MM-DD` and
  `HH:MM` round trips, and the meaning of the initials.

Shared modules:

- `Wrappers` holds `Option`.
- `Types` holds the raw rows, the view records and the read outcomes.
- `Strings` holds JavaScript string operations: `toLowerCase`, `trim`, `includes`, `split`, `String(n)`
  and `padStart`.
- `JsNumber` holds JavaScript numbers:
  - division with Infinity and NaN;
  - `Math.min` and `Math.round`;
  - `parseInt` and `Number`.
- `Seqs` holds filters, subsequences, sums, slices and the sort.
- `TableOps` holds the join primitives the hooks repeat:
  - first-occurrence de-duplication through a `Map`;
  - the `findIndex` de-duplication;
  - last-write-wins lookup objects;
  - group-by objects;
  - `Set` projections;
  - `find`.

Percentages are exact reals. Dates and locale texts are parameters, as described under "Left out".

## Model

| member | source | states |
|---|---|---|
| TableOps.UniqueById | DashboardMobileV2/hooks/useDashboard.ts:142-157 | The `forEach` that sets a row into a fresh `Map` unless its id is already there, followed by `Array.from(values())`, yields the first-occurrence de-duplication of the rows. |
| TableOps.FirstOccurrencesDistinct | DashboardMobileV2/hooks/useDashboard.ts:142-157 | The de-duplicated rows have pairwise distinct ids. |
| TableOps.FirstOccurrencesSubsequence | DashboardMobileV2/hooks/useDashboard.ts:142-157 | The de-duplicated rows are input rows, in input order. |
| TableOps.FirstOccurrencesAreFirst | DashboardMobileV2/hooks/useDashboard.ts:142-157 | Every kept row is the first input row carrying its id: the first occurrence wins. |
| TableOps.FirstOccurrencesIds | DashboardMobileV2/hooks/useDashboard.ts:142-157 | The ids kept are exactly the ids of the input. |
| TableOps.FirstOccurrencesCount | DashboardMobileV2/hooks/useDashboardData.ts:72-87 | There are as many unique rows as distinct ids. |
| TableOps.FindIndexDedupIsFirstOccurrences | DashboardMobileV2/hooks/useSpeakers.ts:77-79 | The `filter((x, i, arr) => arr.findIndex(same id) === i)` de-duplication keeps exactly the rows that the first-wins `Map` de-duplication keeps. |
| TableOps.FoundAtOwnIndexIsNew | DashboardMobileV2/hooks/useSpeakers.ts:77-79 | `findIndex` of a row's id returns the row's own index exactly when no earlier row has that id. |
| TableOps.BuildLookup | DashboardMobileV2/hooks/useDashboard.ts:165-168 | The loop `obj[key(r)] = val(r)` over the rows builds the last-write-wins lookup. |
| TableOps.LastWinsValue | DashboardMobileV2/hooks/useDashboard.ts:165-168 | For a repeated id, the lookup holds the value of the last row carrying that id. |
| TableOps.LastWinsFrom | DashboardMobileV2/hooks/useFeedback.ts:46-49 | Every value in a lookup object is the value of some row carrying its key. |
| TableOps.FillMap | DashboardMobileV2/hooks/useEvents.ts:110-113 | The `forEach` that sets every row into a fresh `Map` yields its keys in first-occurrence order, each holding its last row's value. |
| TableOps.GroupRows | DashboardMobileV2/hooks/useDashboard.ts:171-178 | The loop that pushes each relation onto `obj[key] \|\| []` builds the group-by object. |
| TableOps.GroupByContents | DashboardMobileV2/hooks/useDashboard.ts:171-178 | The group of event `e` lists the track ids of the relations with `event_id = e`, in relation order, with duplicates kept. |
| TableOps.GroupByNonEmpty | DashboardMobileV2/hooks/useEvents.ts:102-107 | Every group present in a group-by object is non-empty. |
| TableOps.GroupByTotal | DashboardMobileV2/hooks/useDashboard.ts:171-178 | Over all groups there are exactly as many entries as relations. |
| TableOps.DistinctProjection | DashboardMobileV2/hooks/useEvent.ts:80-84 | `Array.from(new Set(rows.filter(p).map(f)))` is duplicate-free, holds only projections of selected rows, and holds the projection of every selected row. |
| TableOps.DistinctValues | DashboardMobileV2/hooks/useEvent.ts:80-84 | `Array.from(new Set(rows.map(f)))` is duplicate-free and holds exactly the projections of the rows. |
| TableOps.Find | DashboardMobileV2/hooks/useEvent.ts:69-74 | `find` gives nothing exactly when no element passes; otherwise it gives an element that passes, with no passing element before it. |
| TableOps.FindFirst | DashboardMobileV2/hooks/useSpeaker.ts:64-74 | When element `i` is the first that passes, `find` returns it. |
| TableOps.FindIndex | DashboardMobileV2/hooks/useSpeakers.ts:78 | `findIndex` is -1 exactly when no element passes; otherwise it is the first index that passes. |
| TableOps.SelectEach | DashboardMobileV2/hooks/useEvent.ts:166-173 | The `for` loop over the selected rows acts on each selected row once, in row order. |
| TableOps.DistinctCountSnoc | DashboardMobileV2/hooks/useDashboardData.ts:107-108 | The size of `new Set(rows.filter(p).map(f))` grows by one exactly when a passing row brings a value not yet seen among earlier passing rows. |
| UseDashboard.UpcomingPastPartition | DashboardMobileV2/hooks/useDashboard.ts:184-202 | No event counts as both upcoming and past. When every date parses, upcoming plus past is the number of unique events. |
| UseDashboard.AverageRating | DashboardMobileV2/hooks/useDashboard.ts:205-208 | The average is 0 when no rating satisfies 0 < r ≤ 5. Otherwise it is the sum of exactly those ratings over their number, rounded to a tenth. It always lies in 0..5. |
| UseDashboard.RoundTenths | DashboardMobileV2/hooks/useDashboard.ts:298 | `Number(x.toFixed(1))` on an exact value is a whole number of tenths within half a tenth of `x`. |
| UseDashboard.RoundTenthsUnique | DashboardMobileV2/hooks/useDashboard.ts:298 | Any whole number of tenths t with t − 0.05 ≤ x < t + 0.05 is the rounded value, so rounding is the nearest tenth with halves up. |
| UseDashboard.RoundTenthsInRange | DashboardMobileV2/hooks/useDashboard.ts:298 | Rounding to a tenth keeps a value that lies between two whole numbers between them. |
| UseDashboard.WholeStarAverage | DashboardMobileV2/hooks/useDashboard.ts:205-208 | When every rating is a whole number of stars and one is valid, the average lies in 1..5. |
| UseDashboard.InitialCounts | DashboardMobileV2/hooks/useDashboard.ts:213-215 | Zeroing sets a count of 0 for exactly the track names of the table. |
| UseDashboard.Bump | DashboardMobileV2/hooks/useDashboard.ts:221-228 | `counts[name] = (counts[name] \|\| 0) + 1` adds one to `name` and leaves every other count unchanged. |
| UseDashboard.AddTracksCounts | DashboardMobileV2/hooks/useDashboard.ts:224-229 | Each relation whose track id has a name adds one to that name; unknown ids add nothing. |
| UseDashboard.AddEventCounts | DashboardMobileV2/hooks/useDashboard.ts:217-230 | An event with no relations adds one to 'Sin categoría' and nothing else; otherwise it adds one per named relation. |
| UseDashboard.CountEventsTotals | DashboardMobileV2/hooks/useDashboard.ts:217-230 | After all events, each name's count is its start value plus the sum of every event's contribution. |
| UseDashboard.KeepPositive | DashboardMobileV2/hooks/useDashboard.ts:232-234 | The filter keeps exactly the names with a positive count, with their counts. |
| UseDashboard.CategoryCountsMeaning | DashboardMobileV2/hooks/useDashboard.ts:211-234 | A name is listed exactly when its events contribute a positive count, and it is listed with that count. |
| UseDashboard.ZeroCounts | DashboardMobileV2/hooks/useDashboard.ts:213-215 | The zeroing `forEach` yields the initial counts. |
| UseDashboard.BumpTracks | DashboardMobileV2/hooks/useDashboard.ts:224-229 | The inner `forEach` over one event's track ids yields that event's counts. |
| UseDashboard.CountByTrack | DashboardMobileV2/hooks/useDashboard.ts:211-234 | The two counting loops followed by the positive filter yield the category table. |
| UseDashboard.OccupancyRate | DashboardMobileV2/hooks/useDashboard.ts:241-244 | The rate is 0 without a positive maximum; otherwise rate × max = 100 × subscribers. |
| UseDashboard.EightyPercentRule | DashboardMobileV2/hooks/useDashboard.ts:244-250 | With a positive maximum, `occupancyRate >= 80` holds exactly when 100·sub ≥ 80·max. |
| UseDashboard.StatusOf | DashboardMobileV2/hooks/useDashboard.ts:241-250 | With max ≤ 0 the status is 'available'. With sub ≥ max > 0 it is 'full'. Otherwise it is 'almost-full' exactly when 100·sub ≥ 80·max, and 'available' exactly when not. |
| UseDashboard.OccupancyPercentInRange | DashboardMobileV2/hooks/useDashboard.ts:252-260 | The rounded occupancy is 0 without a positive maximum and stays in 0..100 while subscribers do not exceed it. |
| UseDashboard.SubscriptionOf | DashboardMobileV2/hooks/useDashboard.ts:252-260 | A row's id is the decimal text of the event id. Its name is never empty and is 'Sin título' for an untitled event. Its status follows the status rule. |
| UseDashboard.SubscriptionsOnePerEvent | DashboardMobileV2/hooks/useDashboard.ts:237-275 | The sorted subscription rows rearrange exactly one row per unique event, and their ids are distinct. |
| UseDashboard.DashboardConsistent | DashboardMobileV2/hooks/useDashboard.ts:294-320 | After a load, upcoming plus past is at most the total, there is one subscription row per unique event with distinct ids, and every category count is positive. Any failed read yields all zeros. |
| UseDashboard.FetchDashboardData | DashboardMobileV2/hooks/useDashboard.ts:96-324 | The load with its map-filling loops yields the statistics of the function model. |
| UseEvents.TrackNamesMeaning | DashboardMobileV2/hooks/useEvents.ts:132-135 | The track names are the names of the relation ids that name a track, in relation order; ids with no or an empty name drop out. |
| UseEvents.ToEventMeaning | DashboardMobileV2/hooks/useEvents.ts:124-157 | An event record counts exactly the feedback rows with its id, and its rating is 0 without any. Its tracks are the names of its relations' tracks in order. Its time is `hora_inicio - hora_fin`, and missing capacities are 0. |
| UseEvents.SearchFilterMeaning | DashboardMobileV2/hooks/useEvents.ts:161-167 | An empty or absent search leaves the list unchanged. Otherwise it keeps exactly the events whose lowercased name or description contains the lowercased query, in their order. |
| UseEvents.CategoryFilterMeaning | DashboardMobileV2/hooks/useEvents.ts:168-172 | No category leaves the list unchanged. A category keeps exactly the events that list it among their tracks, in order. |
| UseEvents.PresentMeaning | DashboardMobileV2/hooks/useEvents.ts:175-184 | The result rearranges the filtered list plus the optimistic event exactly once. The optimistic event bypasses both filters. |
| UseEvents.FetchAll | DashboardMobileV2/hooks/useEvents.ts:62-193 | The load with its map-filling loops yields the events of the function model, and `[]` when any read throws. |
| UseEvent.SpeakerIdsMeaning | DashboardMobileV2/hooks/useEvent.ts:80-84 | The speaker ids are distinct and are exactly the `speaker_id` values of the event's relations. |
| UseEvent.SpeakerViewIds | DashboardMobileV2/hooks/useEvent.ts:90-103 | The joined speakers have distinct ids. |
| UseEvent.SpeakersFromTable | DashboardMobileV2/hooks/useEvent.ts:90-103 | Each joined speaker is the record of a table row of one of the event's speakers, and there are no more of them than table rows. |
| UseEvent.SpeakersCoverTable | DashboardMobileV2/hooks/useEvent.ts:90-103 | Every table row of one of the event's speakers is represented by a joined speaker with its id, so a repeated row appears once. |
| UseEvent.FeedbackForMeaning | DashboardMobileV2/hooks/useEvent.ts:109-119 | The feedback is exactly the rows whose event id reads as `id`, one record each. Each carries the event's title as its event name. |
| UseEvent.ToEventMeaning | DashboardMobileV2/hooks/useEvent.ts:122-143 | The event's rating count is the number of its feedback rows, and its rating is 0 without any. |
| UseEvent.DetailsLoading | DashboardMobileV2/hooks/useEvent.ts:52 | An empty id performs no lookup and changes nothing; any other id ends loading. |
| UseEvent.DetailsNotFound | DashboardMobileV2/hooks/useEvent.ts:69-74 | When no raw event has the id, the event is null and nothing else changes. |
| UseEvent.DetailsFound | DashboardMobileV2/hooks/useEvent.ts:69-143 | When every read succeeds, the event shown is the record of the first raw event whose `String(id)` is `id`, with that event's speakers and feedback. |
| UseEvent.FetchEventDetails | DashboardMobileV2/hooks/useEvent.ts:51-150 | The loading method with its speaker-map loop yields the stage-by-stage state of the function model. |
| UseEvent.DeleteEvent | DashboardMobileV2/hooks/useEvent.ts:163-177 | The relation rows of the event are deleted in order, then the event itself. A relation read that is not an array deletes nothing and returns false. |
| UseEvent.DeleteSelectionMeaning | DashboardMobileV2/hooks/useEvent.ts:168 | The rows selected for deletion are exactly the relation rows whose `event_id` reads as `id`, in order. |
| UseDashboardData.ToUpcoming | DashboardMobileV2/hooks/useDashboardData.ts:92-103 | A card carries the event's id and name. Its category falls back to 'General' and its date to 'TBD' when empty. |
| UseDashboardData.EventCountBound | DashboardMobileV2/hooks/useDashboardData.ts:107-108 | A speaker's event count never exceeds the speaker's relations. |
| UseDashboardData.EventCountIgnoresRepeats | DashboardMobileV2/hooks/useDashboardData.ts:107-108 | A repeated relation does not inflate the event count, and a relation of another speaker does not change it. |
| UseDashboardData.EventCountNewEvent | DashboardMobileV2/hooks/useDashboardData.ts:107-108 | A relation with an event the speaker had no relation with adds exactly one. |
| UseDashboardData.MetricsMeaning | DashboardMobileV2/hooks/useDashboardData.ts:121-130 | `totalEvents` and `totalSpeakers` are the unique counts; the other metrics are the fixed constants. |
| UseDashboardData.UpcomingEventsMeaning | DashboardMobileV2/hooks/useDashboardData.ts:92-103 | The upcoming events are the cards of the first min(3, n) unique events, in order, with distinct ids. |
| UseDashboardData.TopSpeakersMeaning | DashboardMobileV2/hooks/useDashboardData.ts:106-118 | The top speakers are the cards of the first min(4, m) unique speakers, in order, with distinct ids. Each counts its speaker's distinct events. |
| UseDashboardData.DashboardFailure | DashboardMobileV2/hooks/useDashboardData.ts:135-148 | A read that throws leaves zero metrics and no cards. |
| UseDashboardData.LoadDashboardData | DashboardMobileV2/hooks/useDashboardData.ts:47-152 | The load with its `Map`-filling loops yields the summary of the function model. |
| UseSpeakers.ExtractMeaning | DashboardMobileV2/hooks/useSpeakers.ts:42-57 | Entries without `data` are dropped. Every other entry keeps its data fields, takes `entry_id` when its own id is falsy, and takes 'Unknown Speaker' when its name is empty. |
| UseSpeakers.SpeakersArrayShapes | DashboardMobileV2/hooks/useSpeakers.ts:32-63 | A bare array is taken as it is. An unexpected shape yields no speakers. An HTTP error or an unreadable body throws. |
| UseSpeakers.Normalize | DashboardMobileV2/hooks/useSpeakers.ts:68-74 | An empty name becomes `Speaker <index+1>`. Empty email and company become null. A falsy id becomes `speaker-<now>-<index>`. Every other field is kept. |
| UseSpeakers.NormalizeAll | DashboardMobileV2/hooks/useSpeakers.ts:68-74 | Normalisation maps every speaker at its own index, preserving length and order. |
| UseSpeakers.FetchSpeakersMeaning | DashboardMobileV2/hooks/useSpeakers.ts:24-91 | The speakers are the first per id of the normalised list, in order, with distinct truthy ids and non-empty names. A failure lists nothing and sets the error message. |
| UseSpeaker.OrNull | DashboardMobileV2/hooks/useSpeaker.ts:87-89 | `x \|\| null` is null exactly for an empty text and otherwise the text itself. |
| UseSpeaker.Normalize | DashboardMobileV2/hooks/useSpeaker.ts:83-96 | The defaults are applied: name 'Unknown Speaker', bio 'No bio available', role 'Speaker', rating 4.5, expertise [] and social {}. The id falls back to `entry_id`. |
| UseSpeaker.FetchSpeakerNoId | DashboardMobileV2/hooks/useSpeaker.ts:23-26 | A null or empty id reads nothing and only ends loading. |
| UseSpeaker.FetchSpeakerFound | DashboardMobileV2/hooks/useSpeaker.ts:64-100 | The speaker shown is the normalisation of the first entry with data whose `String(data.id \|\| entry_id)` is `id`. It comes with that entry's `entry_id` and no events. |
| UseSpeaker.FetchSpeakerNotFound | DashboardMobileV2/hooks/useSpeaker.ts:104-114 | Without a match the error is `Speaker with ID "<id>" not found`, and the speaker and the entry id are null. |
| UseSpeaker.FetchSpeakerErrors | DashboardMobileV2/hooks/useSpeaker.ts:109-114 | Every failed read clears the speaker, its entry id and the events, and sets a message. |
| UseSpeaker.FetchSpeakerOutcome | DashboardMobileV2/hooks/useSpeaker.ts:79-117 | After a read with an id, a speaker is shown exactly when there is no error, and the events stay empty. |
| UseFeedback.PropertyOrderMeaning | DashboardMobileV2/hooks/useFeedback.ts:51 | Object-key enumeration reorders distinct keys without losing or repeating one. |
| UseFeedback.PropertyOrderIndexFirst | DashboardMobileV2/hooks/useFeedback.ts:51 | Array-index keys are enumerated first, in ascending order. |
| UseFeedback.EntryOrderMeaning | DashboardMobileV2/hooks/useFeedback.ts:46-55 | The entries list each event id once, exactly the ids of the rows, with the array-index ids first in ascending order. |
| UseFeedback.EntryOrderMember | DashboardMobileV2/hooks/useFeedback.ts:46-55 | A number is an enumerated key exactly when some row has it as its id. |
| UseFeedback.EventChoicesDistinct | DashboardMobileV2/hooks/useFeedback.ts:50-55 | There is exactly one choice per distinct event id. |
| UseFeedback.EventChoicesNamed | DashboardMobileV2/hooks/useFeedback.ts:46-55 | Every choice carries the title that the last-write-wins map holds for its id. |
| UseFeedback.EventChoicesCover | DashboardMobileV2/hooks/useFeedback.ts:50-55 | Every event row has its choice. |
| UseFeedback.FeedbackNameMeaning | DashboardMobileV2/hooks/useFeedback.ts:46-49 | A feedback row is named after the title of the last event row with its event id. |
| UseFeedback.FeedbackNameUnknown | DashboardMobileV2/hooks/useFeedback.ts:69 | Feedback for an unknown event gets the event name ''. |
| UseFeedback.FilteredMeaning | DashboardMobileV2/hooks/useFeedback.ts:77-82 | The filters keep, in order, exactly the rows of the event when the event id is non-empty, with the rating whenever one is given (0 included). |
| UseFeedback.SortMeaning | DashboardMobileV2/hooks/useFeedback.ts:85-95 | The sort rearranges the list. By rating it orders ascending only for 'asc'; otherwise, absent included, it orders descending. Any sort key other than rating uses the date order. |
| UseFeedback.FeedbackStateFailure | DashboardMobileV2/hooks/useFeedback.ts:98-101 | A failed read leaves the feedback list untouched. |
| UseFeedback.FeedbackListMeaning | DashboardMobileV2/hooks/useFeedback.ts:64-97 | After both reads, the list rearranges the filtered feedback rows, each named from the lookup. |
| UseFeedback.FetchFeedback | DashboardMobileV2/hooks/useFeedback.ts:36-103 | The reduce loop and the reassigned list yield the state of the function model. |
| UseTracks.AllTracksMeaning | DashboardMobileV2/hooks/useTracks.ts:29-36 | There is one track per row, in row order, with the row's id as text and its name. |
| UseTracks.EventTracksNoId | DashboardMobileV2/hooks/useTracks.ts:57 | An empty event id leaves the state, including the loading flag, as it was. |
| UseTracks.AssignedMeaning | DashboardMobileV2/hooks/useTracks.ts:63-66 | `assigned` holds one track id per relation whose `String(event_id)` is the event id, and exactly their ids. |
| UseTracks.EventTracksNoneAssigned | DashboardMobileV2/hooks/useTracks.ts:68-69 | With nothing assigned the result is empty whatever the track table holds. |
| UseTracks.JoinTracksMeaning | DashboardMobileV2/hooks/useTracks.ts:74-78 | The result is exactly the track rows whose id is assigned, in table order with table repeats kept. |
| UseTracks.EventTracksFailure | DashboardMobileV2/hooks/useTracks.ts:81-85 | A failed read keeps the listed tracks and ends loading. |
| MultiSpeakerPicker.FilteredMeaning | DashboardMobileV2/components/events/edit/MultiSpeakerPicker.tsx:40-48 | An option is listed exactly when it has an id and a name, its name is not selected, and the query is blank or the lowercased name contains the lowercased trimmed query. The list is a subsequence of the options. |
| MultiSpeakerPicker.BlankQueryListsAll | DashboardMobileV2/components/events/edit/MultiSpeakerPicker.tsx:41-47 | A query of white space only lists every option with an id and a name that is not selected. |
| MultiSpeakerPicker.ListedHaveNames | DashboardMobileV2/components/events/edit/MultiSpeakerPicker.tsx:43 | Every listed option has a non-empty id and name. |
| MultiSpeakerPicker.TagsMeaning | DashboardMobileV2/components/events/edit/MultiSpeakerPicker.tsx:58-59 | Tags are shown for exactly the non-empty string names in `selected`. |
| MultiSpeakerPicker.Picker.constructor | DashboardMobileV2/components/events/edit/MultiSpeakerPicker.tsx:36-37 | The query starts empty and the dropdown closed. |
| MultiSpeakerPicker.Picker.TypeText | DashboardMobileV2/components/events/edit/MultiSpeakerPicker.tsx:94-97 | Typing sets the query and opens the dropdown. |
| MultiSpeakerPicker.Picker.TapField | DashboardMobileV2/components/events/edit/MultiSpeakerPicker.tsx:78 | Tapping the field toggles the dropdown and keeps the query. |
| MultiSpeakerPicker.Picker.Choose | DashboardMobileV2/components/events/edit/MultiSpeakerPicker.tsx:121-126 | Choosing a named option selects that name, clears the query and closes the dropdown. An unnamed option changes nothing. |
| SpeakerPicker.FilteredMeaning | DashboardMobileV2/components/events/edit/SpeakerPicker.tsx:37-41 | A blank needle returns the options unchanged. Otherwise the result is exactly the options whose lowercased name contains the needle, in order. |
| SpeakerPicker.NeedleBlank | DashboardMobileV2/components/events/edit/SpeakerPicker.tsx:38-39 | The needle is blank exactly when the query is white space only. |
| SpeakerPicker.Picker.constructor | DashboardMobileV2/components/events/edit/SpeakerPicker.tsx:33-34 | The query starts empty and the dropdown closed. |
| SpeakerPicker.Picker.SyncSelected | DashboardMobileV2/components/events/edit/SpeakerPicker.tsx:44-48 | A non-null selection overwrites the query; null leaves it alone. The dropdown is untouched. |
| SpeakerPicker.Picker.TypeText | DashboardMobileV2/components/events/edit/SpeakerPicker.tsx:68-71 | Typing sets the query and opens the dropdown. |
| SpeakerPicker.Picker.TapField | DashboardMobileV2/components/events/edit/SpeakerPicker.tsx:54 | Tapping the field toggles the dropdown. |
| SpeakerPicker.Picker.Choose | DashboardMobileV2/components/events/edit/SpeakerPicker.tsx:91-94 | Choosing selects the option's name and closes the dropdown, keeping the query. |
| CapacityIndicator.AvailableSpots | DashboardMobileV2/components/events/CapacityIndicator.tsx:23 | The available spots are never negative. They are max − current while not over capacity, and 0 once full. |
| CapacityIndicator.NearlyFullRule | DashboardMobileV2/components/events/CapacityIndicator.tsx:22-25 | Nearly full holds exactly when max > 0 and 100·current ≥ 80·max. |
| CapacityIndicator.StatusMeaning | DashboardMobileV2/components/events/CapacityIndicator.tsx:28-44 | 'Sold Out' exactly when current ≥ max; 'Nearly Full' exactly when not full and the 80 % rule holds; 'Available' otherwise. |
| CapacityIndicator.StatusLabelsDistinct | DashboardMobileV2/components/events/CapacityIndicator.tsx:28-44 | The three statuses have distinct texts and colours. |
| CapacityIndicator.ZeroCapacitySoldOut | DashboardMobileV2/components/events/CapacityIndicator.tsx:22-24 | With max = 0 any non-negative count shows 'Sold Out', a 0 % bar and no spots label. |
| CapacityIndicator.BarWidth | DashboardMobileV2/components/events/CapacityIndicator.tsx:113 | The bar width is at most 100 and is either 100 or the percentage. |
| CapacityIndicator.BarWidthRange | DashboardMobileV2/components/events/CapacityIndicator.tsx:113 | For a non-negative count the bar is within 0..100, and it equals the percentage while not over capacity. |
| CapacityIndicator.SpotsLeftMeaning | DashboardMobileV2/components/events/CapacityIndicator.tsx:132-140 | The spots-left label shows exactly when not full, and then with a positive number of spots. |
| EditCapacityField.NearCapacityRule | DashboardMobileV2/components/events/edit/CapacityField.tsx:23 | `sub / max >= 0.8` with the positive guard holds exactly when max > 0 and 10·sub ≥ 8·max. |
| EditCapacityField.UnreadableMaximum | DashboardMobileV2/components/events/edit/CapacityField.tsx:22 | An unparsable maximum text reads as 0. |
| EditCapacityField.NoPositiveMaximum | DashboardMobileV2/components/events/edit/CapacityField.tsx:22-37 | A zero, negative or unparsable maximum always gives 'AVAILABLE', no alert and a 0 % bar. |
| EditCapacityField.StatusMeaning | DashboardMobileV2/components/events/edit/CapacityField.tsx:23-37 | Given max > 0: 'FULL' exactly when sub ≥ max; 'ALMOST FULL' exactly when not full and 10·sub ≥ 8·max; 'AVAILABLE' exactly when 10·sub < 8·max. |
| EditCapacityField.StatusLabelsDistinct | DashboardMobileV2/components/events/edit/CapacityField.tsx:27-37 | The three statuses have distinct texts and colours. |
| EditCapacityField.PercentageRange | DashboardMobileV2/components/events/edit/CapacityField.tsx:25 | The percentage never exceeds 100 and is not negative for a non-negative count. |
| EditCapacityField.AlertsMeaning | DashboardMobileV2/components/events/edit/CapacityField.tsx:126-140 | At most one alert shows. The full alert shows exactly when full, the almost-full alert exactly when almost full, and none when available. |
| EventsCapacityField.PercentageFinite | DashboardMobileV2/components/events/CapacityField.tsx:21 | With a non-zero maximum the percentage is finite: the exact ratio times 100, clamped at 100. |
| EventsCapacityField.PercentageAtMost100 | DashboardMobileV2/components/events/CapacityField.tsx:21 | The percentage is never +Infinity and never above 100. |
| EventsCapacityField.ZeroMaximumPercentage | DashboardMobileV2/components/events/CapacityField.tsx:21 | With max = 0 the unguarded division gives 100 for a positive count, -Infinity for a negative one, and NaN for 0/0. |
| EventsCapacityField.NearCapacityRule | DashboardMobileV2/components/events/CapacityField.tsx:21-22 | Given max > 0, near capacity holds exactly when 100·sub ≥ 80·max. The negative and zero maxima are covered too. |
| EventsCapacityField.StatusMeaning | DashboardMobileV2/components/events/CapacityField.tsx:23-35 | 'Full' exactly when sub ≥ max. For max > 0, 'Almost Full' and 'Available' follow the 80 % rule. |
| EventsCapacityField.ZeroMaximumFull | DashboardMobileV2/components/events/CapacityField.tsx:23 | Without a maximum, any non-negative count is 'Full'. |
| EventsCapacityField.StatusLabelsDistinct | DashboardMobileV2/components/events/CapacityField.tsx:25-35 | The three statuses have distinct texts and colours. |
| EventCard.NoCapacityNoPercentage | DashboardMobileV2/components/events/EventCard.tsx:17-21 | With max ≤ 0 the percentage is 0 and the card is never nearly full. |
| EventCard.NearlyFullRule | DashboardMobileV2/components/events/EventCard.tsx:17-21 | Nearly full holds exactly when max > 0 and 100·current ≥ 80·max. |
| EventCard.ZeroCapacityFull | DashboardMobileV2/components/events/EventCard.tsx:20 | Without a guard, max = 0 makes every non-negative count full, with the FULL label and the red colour. |
| EventCard.LabelsMeaning | DashboardMobileV2/components/events/EventCard.tsx:69-91 | At most one label shows. 'FULL' exactly when current ≥ max, '% FULL' exactly when nearly full and not full. The colour is red when full, orange when nearly full, green otherwise. |
| EventCard.Stars | DashboardMobileV2/components/events/EventCard.tsx:95-100 | There are five stars, and star k is filled exactly when k ≤ rating. |
| EventCard.LitCount | DashboardMobileV2/components/events/EventCard.tsx:95-100 | The number of filled stars is within 0..5. |
| EventCard.StarsMeaning | DashboardMobileV2/components/events/EventCard.tsx:95-100 | The filled stars form a prefix, and their number is the rating's floor clamped to 0..5. |
| SubscriptionsTable.RenderBranches | DashboardMobileV2/components/dashboard/SubscriptionsTable.tsx:50-102 | Loading takes precedence over the empty branch; both replace the table, which shows exactly when not loading and not empty. |
| SubscriptionsTable.DisplayedMeaning | DashboardMobileV2/components/dashboard/SubscriptionsTable.tsx:104 | The displayed rows are a prefix. They are all rows when `maxEvents` is absent or 0, and the first min(maxEvents, n) for a positive limit. |
| SubscriptionsTable.TableMeaning | DashboardMobileV2/components/dashboard/SubscriptionsTable.tsx:104-123 | The hidden count is n − displayed, never negative. The info bar shows exactly when `maxEvents` is truthy and rows are hidden; for a positive limit, exactly when it is below n. |
| SubscriptionsTable.StatusLabelsDistinct | DashboardMobileV2/components/dashboard/SubscriptionsTable.tsx:20-36 | The label and colour maps are total and tell the three statuses apart. |
| SubscriptionsTable.CapacityCell | DashboardMobileV2/components/dashboard/SubscriptionsTable.tsx:197 | The capacity cell shows 'N/A' exactly when the maximum is 0. |
| DatePickerField.FormatDate | DashboardMobileV2/components/events/edit/DatePickerField.tsx:56-59 | For a 1000–9999 year, a real month and a two-digit day, the output matches `^\d{4}-\d{2}-\d{2}$` (so the hint shows). It spells the year, month index + 1 and day. |
| DatePickerField.DateParts | DashboardMobileV2/components/events/edit/DatePickerField.tsx:110 | A value has year, month and day parts exactly when it matches the date pattern. |
| DatePickerField.DateShape | DashboardMobileV2/components/events/edit/DatePickerField.tsx:59 | Four digits, '-', two digits, '-', two digits match the pattern and slice back into those parts. |
| DatePickerField.FourDigitYear | DashboardMobileV2/components/events/edit/DatePickerField.tsx:56-59 | A 1000–9999 year prints as four characters. |
| DatePickerField.HintMeansTenCharacters | DashboardMobileV2/components/events/edit/DatePickerField.tsx:110 | A value with the hint has ten characters, with dashes at positions 4 and 7. |
| DatePickerField.DisplayDate | DashboardMobileV2/components/events/edit/DatePickerField.tsx:34-47 | An empty value displays 'Seleccionar fecha'; any other value gets its locale rendering. |
| DatePickerField.DatePicker.constructor | DashboardMobileV2/components/events/edit/DatePickerField.tsx:28 | The picker starts closed. |
| DatePickerField.DatePicker.Open | DashboardMobileV2/components/events/edit/DatePickerField.tsx:70-72 | Opening shows the picker. |
| DatePickerField.DatePicker.HandleDateChange | DashboardMobileV2/components/events/edit/DatePickerField.tsx:50-62 | Android closes the picker. A picked day is passed on formatted; no pick passes nothing. |
| DatePickerField.DatePicker.HandleWebDateChange | DashboardMobileV2/components/events/edit/DatePickerField.tsx:65-68 | Web input is passed on unchanged. |
| TimePickerField.FormatTime | DashboardMobileV2/components/events/edit/TimePickerField.tsx:60-62 | For hours and minutes below 100 the output has five characters, matches `^\d{1,2}:\d{2}$`, and shows the hint. |
| TimePickerField.TimeRoundTrip | DashboardMobileV2/components/events/edit/TimePickerField.tsx:27-29 | Splitting a formatted time on ':' and converting with `Number` returns the original hours and minutes. |
| TimePickerField.SplitTime | DashboardMobileV2/components/events/edit/TimePickerField.tsx:27 | Two colon-free parts joined by ':' split back into those two parts. |
| TimePickerField.DigitsHaveNoColon | DashboardMobileV2/components/events/edit/TimePickerField.tsx:60-61 | Padded digits contain no ':'. |
| TimePickerField.TimeValueParts | DashboardMobileV2/components/events/edit/TimePickerField.tsx:27-29 | `h:m` reads as the `Number` of each part, and a part that is not a number reads as 0. |
| TimePickerField.TimeValueWithoutColon | DashboardMobileV2/components/events/edit/TimePickerField.tsx:27-29 | A value without ':' reads as its `Number` hours with 0 minutes. |
| TimePickerField.DisplayTime | DashboardMobileV2/components/events/edit/TimePickerField.tsx:35 | An empty value displays 'Seleccionar hora'. |
| TimePickerField.DisplayIncompleteAsIs | DashboardMobileV2/components/events/edit/TimePickerField.tsx:38-39 | A non-empty value without ':', starting with ':', or ending in its only ':' lacks a part and is displayed unchanged. |
| TimePickerField.DisplayCompleteTime | DashboardMobileV2/components/events/edit/TimePickerField.tsx:38-48 | With both parts present the display is the locale rendering of their `parseInt`. |
| TimePickerField.TimePicker.constructor | DashboardMobileV2/components/events/edit/TimePickerField.tsx:21 | The picker starts closed. |
| TimePickerField.TimePicker.Open | DashboardMobileV2/components/events/edit/TimePickerField.tsx:73-75 | Opening shows the picker. |
| TimePickerField.TimePicker.HandleTimeChange | DashboardMobileV2/components/events/edit/TimePickerField.tsx:54-65 | Android closes the picker. A picked time is passed on formatted; no pick passes nothing. |
| TimePickerField.TimePicker.HandleWebTimeChange | DashboardMobileV2/components/events/edit/TimePickerField.tsx:68-71 | Web input is passed on unchanged. |
| SpeakerRow.InitialsMeaning | DashboardMobileV2/components/speakers/SpeakerRow.tsx:26 | The initials are the first characters of the non-empty space-separated pieces, in order. Their length is the number of non-empty pieces, so leading, trailing and repeated spaces add nothing. |
| SpeakerRow.ConcatFirstChars | DashboardMobileV2/components/speakers/SpeakerRow.tsx:26 | Joining `n[0]` of each piece equals taking the first character of each non-empty piece; `undefined` joins as ''. |
| SpeakerRow.InitialsFromName | DashboardMobileV2/components/speakers/SpeakerRow.tsx:26 | Every initial is a character of the name other than a space, so case is kept. |
| SpeakerRow.SingleWord | DashboardMobileV2/components/speakers/SpeakerRow.tsx:26 | A one-word name yields its first character. |
| CapacityCopies.PositiveMaximumAgrees | DashboardMobileV2/components/events/CapacityIndicator.tsx:22-44 | For a positive maximum, the dashboard status, the indicator, both capacity fields and the card give the same level. |
| CapacityCopies.ZeroMaximumDisagrees | DashboardMobileV2/components/events/CapacityField.tsx:21-23 | With max = 0 and no subscriber, the dashboard and the editor say available, while the indicator, the list field and the card say full. |
| CapacityCopies.NegativeMaximum | DashboardMobileV2/components/events/edit/CapacityField.tsx:22-24 | A negative maximum, which `parseInt` can give, reads as available in the dashboard and the editor and as full in the indicator and the list field. |
| JsNumber.ParseIntOrZero | DashboardMobileV2/components/events/edit/CapacityField.tsx:22 | `parseInt(s) \|\| 0` is the parsed integer, or 0 when parsing gives NaN. |
| JsNumber.ParseIntOfIntToString | DashboardMobileV2/components/events/edit/CapacityField.tsx:22 | `parseInt(String(n))` gives back `n`. |
| JsNumber.NumberOfDigits | DashboardMobileV2/components/events/edit/TimePickerField.tsx:27 | `Number` of a non-empty digit string is its decimal value. |
| JsNumber.Div | DashboardMobileV2/components/events/CapacityField.tsx:21 | Division by a non-zero integer is exact. Dividing by 0 gives +Infinity, -Infinity or NaN by the sign of the numerator. |
| JsNumber.Round | DashboardMobileV2/hooks/useDashboard.ts:257 | `Math.round` gives the integer nearest to `x`, halves rounding up. |
| Strings.TwoDigitsOf | DashboardMobileV2/components/events/edit/DatePickerField.tsx:57-58 | `String(d).padStart(2, '0')` for d < 100 is two digits spelling `d`. |
| Strings.LowerTrimBlank | DashboardMobileV2/components/events/edit/MultiSpeakerPicker.tsx:41 | `s.toLowerCase().trim()` is empty exactly when `s` is white space only. |
| Strings.JoinSplit | DashboardMobileV2/components/speakers/SpeakerRow.tsx:26 | Joining the pieces of a split with the separator gives back the string. |
| Seqs.SortBy | DashboardMobileV2/hooks/useFeedback.ts:87-95 | The sort keeps the length and rearranges the elements. |
| Seqs.SortByKeyIsSorted | DashboardMobileV2/hooks/useFeedback.ts:87-90 | A comparator that subtracts keys sorts by that key. |
| Seqs.SliceTo | DashboardMobileV2/components/dashboard/SubscriptionsTable.tsx:104 | `slice(0, end)` is the first `min(end, n)` elements for a non-negative end, and counts from the back for a negative one. |

## Left out

- Network access (fetch, URL construction, `Constants`, cache headers, HTTP status texts) is left out. Each read's outcome is a parameter: rows, a body that is not an array, or a throw.
- The DELETE requests are left out. Only the selection and order of the rows deleted are modelled, and the event deletion's success is a parameter.
- React machinery (`useState` setters, `useEffect`, `useFocusEffect`, `useMemo`) and the polling timers are left out. Each hook is the state its fetch sets, from the state before it.
- Date parsing and locale formatting are parameters, not computed. This covers `new Date(text)` as a day number or timestamp (`None` for an invalid date), `toLocaleDateString` and `toLocaleTimeString`.
- `Date.now`, the current day and the 7-day week-ago bound are parameters.
- A `Date` is modelled only through the parts the pickers read (year, month index, day; hours, minutes). `setHours` overflow is not modelled.
- UseDashboard.SubscriptionsOnePerEvent: claims only that the sort rearranges the rows, not an order. Its comparator treats dates less than a day apart as equal, so it is not a consistent ordering.
- UseDashboard.CountByTrack: `eventsByCategory` is a map from track name to count, so the key order that `Object.fromEntries(Object.entries(...))` gives the object is not modelled; only which names map to which counts.
- Feedback ratings are whole numbers outside the dashboard average: `Types.Feedback` and the feedback rows of UseEvent, UseEvents and UseFeedback carry an `int` rating, so a fractional rating there (and its effect on an event's mean rating) is not modelled. The dashboard average takes real ratings.
- UseEvents.PresentMeaning: claims only that the date sort rearranges the list, because dates are opaque parameters.
- UseFeedback.SortMeaning: claims an order only for the rating sort; the date order is a permutation of opaque timestamps.
- The engine's `Array.prototype.sort` is modelled by a stable insertion sort with the source's comparator. Which permutation an engine picks for comparators that are not orders is not modelled.
- Floating point is replaced by exact rationals: `toFixed`, `Math.round` and division are exact. The percentage texts (`toFixed(0)`) and the rating text are not modelled.
- `toLowerCase` covers ASCII and Latin-1 letters only. Other Unicode case mappings, and UTF-16 code units versus characters (as in `n[0]`), are not modelled.
- JsNumber.NumberOf: `Number` reads only decimal integer texts, with optional sign and surrounding white space. Hex (`0x10`), binary and octal (`0b1`, `0o7`), fraction (`1.5`) and exponent (`1e3`) texts, and `Infinity`, read as NaN in the model; JavaScript reads them as numbers. This reaches TimePickerField.TimeValue and TimePickerField.TimeValueParts, which then use 0 for such a part where JavaScript uses its value.
- Absent texts of raw rows are modelled as `""` and absent numbers as absent options. The JavaScript difference between `undefined`, `null` and `""` only matters through truthiness, which the model keeps.
- UseSpeakers.Normalize: the `speaker-${Date.now()}-${index}` id fallback takes the clock as a function parameter.
- UseSpeakers.SpeakersArrayShapes: a bare array response is taken as speaker records; items that are not objects are not modelled.
- SubscriptionsTable.StatusLabelsDistinct: the `default` branches ('N/A' and the grey colour) are unreachable with the typed status and are not modelled.
- SubscriptionsTable.DisplayedMeaning: `maxEvents` is an integer; fractional or NaN values are not modelled.
- Native `DateTimePicker` integration and `Platform.OS` branching are not modelled beyond the Android close-on-change flag.
- `console.*` logging is not modelled.
- Style and render-only files are not part of this model. These are: the style sheets, ConfirmationDialog, SectionHeader, the text, location, platform and image fields, SearchBar, AddButton, UpcomingEventCard, FeedbackCard, FilterPanel, CategorySelector, SubmitDeleteButtons, DateTimeFields, EventBadges, CategoryBadge, SpeakerCard and DashboardMetricCard.
