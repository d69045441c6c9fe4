# Selection reactors, in Dafny

This project models the state logic of the `Selection` app, a client that
shows randomly generated user profiles:

- `ViewControllerReactor` (module `ViewControllerReactor`) is the grid
  screen's reactor. Its state is the selected gender (male or female) and the
  number of grid columns. `selectGender` sets the gender. `toggleLayout`
  reads the current layout and switches to two columns from one, and to one
  column otherwise.
- `ViewReactor` (module `ViewReactor`) is a second reactor. Its state is a
  selected segment index, optional data and an optional error. A successful
  request stores its data and clears the error. A failed request records its
  error, keeps the data, and does not end the action stream.
- `UserProfile` (module `UserProfile`) holds the decoded profile records and
  `Name.fullName`: the title, first and last name joined by single spaces. It
  is defined once for men's names and once for women's names.

Both reactors follow ReactorKit's pattern. `mutate` turns an action into
mutations, and `reduce` copies the state and overwrites the fields a mutation
names. ReactorKit's store is a library and is not part of this model. In its
place stands a pure fold: `ReduceAll` folds mutations in arrival order,
`Step` handles one action, and `ViewControllerReactor.Run` handles a
sequence of actions, each `mutate` reading the state left by the previous
ones. `ViewReactor`'s request completes asynchronously, so its mutations can
reach the store in any order. Its lemmas are therefore stated over
`ReduceAll` of an arbitrary sequence of mutations. The request itself, with
its decoding, is an input: `ViewReactor.Mutate` is given the `Result` it
produced. The data and error types are not part of this model and are type
parameters `D` and `E`.

The grid reactor has exactly two actions, `selectGender` and `toggleLayout`
(`Selection/ViewControllerReactor.swift:13-16`).

## Model

| member | source | states |
|---|---|---|
| `ViewControllerReactor.InitialState` | Selection/ViewControllerReactor.swift:38 | the screen starts showing men's profiles in one column |
| `ViewControllerReactor.NextLayout` | Selection/ViewControllerReactor.swift:46 | the new layout is always 1 or 2, and it is 2 exactly when the current layout is 1 |
| `ViewControllerReactor.Mutate` | Selection/ViewControllerReactor.swift:41-49 | every action yields exactly one mutation: `selectGender(g)` yields `setSelectedGender(g)`, and `toggleLayout` yields `setLayout` of the toggled current layout |
| `ViewControllerReactor.Reduce` | Selection/ViewControllerReactor.swift:52-61 | `setSelectedGender(g)` sets the gender and keeps the layout; `setLayout(n)` sets the layout and keeps the gender |
| `ViewControllerReactor.StepEffect` | Selection/ViewControllerReactor.swift:41-61 | the whole new state after one action: selecting changes only the gender, and toggling changes only the layout |
| `ViewControllerReactor.ToggleOnce` | Selection/ViewControllerReactor.swift:45-58 | from one or two columns, a toggle gives the other of the two and keeps the gender |
| `ViewControllerReactor.ToggleTwice` | Selection/ViewControllerReactor.swift:45-58 | from one or two columns, toggling twice restores the original state |
| `ViewControllerReactor.SelectIdempotent` | Selection/ViewControllerReactor.swift:43-56 | selecting the same gender twice gives the same state as selecting it once |
| `ViewControllerReactor.RunKeepsValidLayout` | Selection/ViewControllerReactor.swift:45-58 | from one or two columns, any sequence of actions keeps one or two columns |
| `ViewControllerReactor.ReachableLayouts` | Selection/ViewControllerReactor.swift:38-61 | every state reachable from the initial state (male, one column) has one or two columns |
| `ViewControllerReactor.RunSelectsLastGender` | Selection/ViewControllerReactor.swift:43-56 | after any actions, the gender is the one last selected, or the starting gender if none was selected |
| `ViewControllerReactor.RunLayoutParity` | Selection/ViewControllerReactor.swift:45-58 | from one or two columns, the final layout is the starting one after an even number of toggles and the other one after an odd number |
| `ViewReactor.InitialState` | Selection/ViewReactor.swift:35-37 | the reactor starts at segment 0 with no data and no error |
| `ViewReactor.Mutate` | Selection/ViewReactor.swift:39-51 | every action yields exactly one mutation: `updateSegment(i)` yields `setSegmentIndex(i)`, a request that succeeds with d yields `setData(d)`, and one that fails with e yields `setError(e)` |
| `ViewReactor.Reduce` | Selection/ViewReactor.swift:53-65 | total over the three mutations, each changing only its fields: the index alone; the data, with the error cleared; the error alone |
| `ViewReactor.ReduceAllFields` | Selection/ViewReactor.swift:53-65 | after mutations arriving in any order, the index is the last one set, the data is the last delivered, and the error is that of the last request outcome (none if it succeeded) |
| `ViewReactor.UpdateSegmentEffect` | Selection/ViewReactor.swift:41-57 | a segment change sets the index and keeps the data and the error |
| `ViewReactor.FetchSuccessEffect` | Selection/ViewReactor.swift:44-60 | a successful request stores its data, clears the error and keeps the index |
| `ViewReactor.FetchFailureEffect` | Selection/ViewReactor.swift:44-62 | a failed request records its error and keeps the data and the index |
| `ViewReactor.FromInitialState` | Selection/ViewReactor.swift:35-64 | from the initial state (index 0, no data, no error), data is present exactly when some request succeeded, and an error exactly when the last request outcome failed |
| `UserProfile.MenName.FullName` | Selection/UserProfile.swift:27-29 | the full name is the title and a space, then the first name, then a space and the last name; its scalar length is the parts' scalar lengths plus two |
| `UserProfile.WomenName.FullName` | Selection/UserProfile.swift:56-58 | the same decomposition for a woman's name |
| `UserProfile.SplitFullName` | Selection/UserProfile.swift:27-29 | when no part contains a space, cutting the full name at spaces gives exactly title, first and last |
| `UserProfile.FullNameInjective` | Selection/UserProfile.swift:27-29 | when no part contains a space, two names have the same full name exactly when they are equal, both as Unicode scalar sequences |
| `UserProfile.SameFormula` | Selection/UserProfile.swift:51-58 | a woman's name and a man's name with the same parts have the same full name |

## Left out

- `UserProfile.MenName.FullName` (and `UserProfile.WomenName.FullName`, `UserProfile.FullNameInjective`): strings are modelled as sequences of Unicode scalars. Swift's `String.count` counts grapheme clusters and its `==` uses canonical equivalence; neither is captured, so the length and equality statements hold at the scalar level only.
- ReactorKit and RxSwift: the action subject, `currentState` storage, schedulers and `Observable` plumbing are replaced by the pure folds `ReduceAll`, `Step` and `Run`.
- The Moya provider and the `YourAPIService` request in `ViewReactor` (`Selection/ViewReactor.swift:14`, `:45-48`): the network call and the decoding into `SomeDataType` become a `Result` input. `SomeDataType`, `YourAPIService` and the error type are type parameters.
- Concurrency: overlapping requests are neither cancelled nor de-duplicated. The model captures their completion order only as an arbitrary order of mutations given to `ReduceAll`.
- JSON decoding of `RandomMenResponse` and `RandomWomenResponse` (`Selection/UserProfile.swift:12-14`, `:41-43`) is Foundation library behaviour and is not modelled. The records are plain datatypes.
- The source's two nested `Location` and `Picture` types have the same fields and no behaviour, so each is modelled once. `Name` is kept twice (`MenName`, `WomenName`) because it carries `fullName`.
- Integer width: the column layout is an unbounded integer in the model. Swift's `Int` never overflows here, because only the constants 1 and 2 are ever stored.
- `ProfileCell.swift`, `ViewController.swift` (including the segment-index↔gender closures), `ProfileImageViewController.swift` and `Network.swift` are UI, layout, image loading and HTTP configuration. They are not part of this model.
