# Verification model of go-libzfs

go-libzfs wraps the C library libzfs for Go programs. This project models the logic the wrapper adds
on top of the library and proves what it promises:

- **Clone-aware destruction.** `DestroyPromote` removes a dataset with everything below it although
  other datasets are clones of its snapshots: it finds the clones by breadth-first search (`Clones`),
  sorts them (`sort.go`), renames clashing snapshots, promotes one clone, destroys the children and the
  dataset, and removes the snapshots that moved to the clone and that nobody depends on.
- **Recursive destruction and handles.** `DestroyRecursive` goes through the cached tree for
  filesystems and through the live pool for same-named snapshots. Handles are C list nodes that are
  built by prepending, walked into Go structs, copied by value, and freed behind a shared `sync.Once`.
  Pool handles have no such guard and rely on their lists being cut apart.
- **Device trees.** A recursive builder checks arity and parity and writes nested nvlists; a recursive
  reader and a recursive collector of leaves go the other way.
- **`SendSize`.** Two goroutines share a bounded pipe, a redirected stdout, buffered C output and an
  unbuffered channel.

## How the model is built

`Pools` is the backend: a pool maps paths to filesystems and guids to snapshots, and has the four
transitions the code uses. `Backend.Zfs` puts a failing surface around it: every foreign call may be
refused, and an iteration over children may fail after some reports, which the C wrapper turns into an
empty list.
`Steady` says that no iteration is cut short, `Calm` that no call fails for reasons outside the model.
`Zfs.trace` records every state the pool goes through.

What the backend is taken to do (libzfs behaviour, not visible in the repository):

- Promoting `c`, a clone of `d@s`, moves every snapshot of `d` no younger than `s` to `c`, gives `c` the
  former origin of `d`, makes `c@s` the origin of `d`, and is refused on a clash of snapshot names.
  Snapshots keep their identity (guid) when they move or are renamed, and origins follow it.
- A filesystem can be destroyed when it has no children and no snapshots and is not the pool's root; a
  snapshot when it has no clone. Destroying a name that does not exist succeeds.
- Renaming a snapshot leaves the name in its handle as it was. All copies of a struct share the handle, so
  after the conflict loop the cached child of a renamed snapshot still stands for the old name.
- Snapshots of one dataset have different txgs, and a clone's own snapshots are younger than its origin.
  All transitions keep this, so it holds in every state.

The Go struct is the datatype `Handles.Dataset`: the source copies it by value, so methods that update
it return the new value. List nodes, the `sync.Once` guards, the pool and nvlists are objects.
`Trees.Reflects` says that a struct tree is what a fresh open reads; `Trees.Shaped` is what every
opened tree keeps even when the pool changes behind it.

Conditions under which the outcome of `DestroyPromote` is known (`Promotion.Prepared`, on the datasets at
or below the doomed one): none of them is a clone of another (`NoInternal`); and of each that has clones, a
youngest one is found when its turn comes (`TopsReached`; other clones may be hidden). The search gets to a
clone if every dataset on the way from the pool's root is no clone, or a clone of the same dataset, or was
promoted before and so is no clone any more (`Released`): that is how a tree is destroyed that was
snapshotted and cloned recursively (`ClonedTree`). What comes before is given by the order in which an
opened tree lists children (`TurnBefore`); what is found without regard to that order is found in any
(`AnyOrder`). These conditions are enough; they are not necessary, though a call can fail without them
(`Examples.InnerFails`). `Small` bounds the pool by the capacity of the search's channel, which one
goroutine both fills and drains; `Aged` says that no two filesystems were created in the same txg, so that
the youngest clone is unique.

When a snapshot of a doomed dataset `x` and one of the clone `c` to be promoted have the same name, the
first is renamed with a suffix. Nothing is assumed about these suffixed names. Whether `x` gets through
(`Promotion.Passes`) depends on three things: whenever a suffixed name is taken in `x`, its bearer was
listed earlier and had to give way itself (`Orderly`, in the order `CachedOrders` reads off the opened
tree); no snapshot that moves gets a name `c` uses (`Movable`); and a snapshot that stays behind gets a
name another cached snapshot had (`LeftCached`), because only cached names are destroyed. `Passable` says so
of every doomed dataset. `SuffixFresh` (all suffixed names are free in both) is a condition of corollaries
only: then `Passable` comes down to `Compatible`, that no snapshot that stays behind has a name of the clone.

## Main results

- `WholeCalls.OpenDestroyPromote` puts together what is known of a call. Whatever happens, in every
  state the pool goes through origins exist, the clone graph is acyclic and nothing outside the subtree
  is destroyed; and whenever it succeeds, exactly the filesystems outside are left. On a prepared subtree
  the origins and snapshots of the survivors are as `KidSteps.Outcomes` says. Without foreign failures the
  call succeeds exactly if `Passable` holds for the orders in which the children were listed; with fresh suffixed names, whatever the orders, exactly if
  `Compatible` holds. A snapshot that stays behind with a name of the clone is renamed, its cached handle
  keeps the old name, and its dataset cannot be destroyed; so the comment that promoting the youngest clone
  makes the call "always work" is not what the code does. `Examples.YoungClashFails` is a concrete pool.
- `Consequences.LostIff`: the clean-up goes by name, and a successful call may destroy a snapshot that a
  promoted clone had of its own. It destroys exactly those whose name is the suffixed name of some `m`, where
  the clone and `x` both have an `m`, the one of `x` stays behind, and `x` has the suffixed name too, and that
  nothing holds when the clean-up comes: every clone of it was a doomed dataset without clones, below `x` or
  in a branch cached before (`Consequences.Lost`, `OwnSnapshots.Held`). So an own snapshot is lost only where a suffixed name was taken
  in both (`SnapshotsAfter`); with fresh suffixed names none is (`FreshLosesNothing`).
  `ExposedIffYoungClash`: where a dataset gets through, some snapshot of the clone is exposed in this way
  exactly if one that stays behind has a name of the clone. `Examples.OwnSnapshotLost` is a concrete pool, and
  `Examples.BusyNeverPasses` one where a taken name only makes the call fail.
- `Halts.Halted`, in the contracts of `DestroyPromote` and `OpenDestroyPromote`: what a failed call leaves. If
  it fails in the first phase, nothing changed but the names of the clashing snapshots that had their turn. If
  it fails at a child, the later child filesystems are as they were with all below them, the child is as its
  own call left it, and of the dataset's own snapshots exactly those are gone that stayed behind under a name
  cached before. (One may have been cached later under its old name: `Examples.StaleNameTakesLater`.)
- `Stops.Stopped`, in the contracts of `DestroyRecursive` and `OpenDestroyClose`: the same for the recursive
  destruction. All that is gone went with a child cached before the place where the call stopped, or within
  that place; a snapshot the call was made for is left. (An earlier snapshot child takes the chains of its
  name below later children with it: `Examples.ChainGoesFirst`.)
- `Promotion.OnePromoteIsEnough`: one promotion per dataset is enough, because it is the youngest clone.
- `Choice.ListedIff`, `CloneLists.Clones`: which clones the search finds, and in which order.
- `WholeCalls.OpenDestroyClose`: `DestroyRecursive` removes no filesystem that has a snapshot with a clone
  outside; without foreign failures it removes one, none of whose datasets is a clone of another one of
  them, exactly if no snapshot in it has a clone, and a snapshot exactly if none of those that go with it has
  one; every handle is closed and every node freed exactly once, whatever the outcome.
- `Session.Run`: any program that opens, copies variables and children out of them, closes and destroys frees
  each node at most once; `Session.Step` says what each statement does.
- `PoolHandles.OpenThenClose`: closing all opened pools in any order frees and closes everything once.
- `VdevBuilding.BuildVDevTree`, `VdevRoundTrip.BuildRoot`: the builder accepts exactly the specifications
  within bounds, and stores each node in its place with the contents it should have.
- `VdevPlaces.ReadInPlace`, `VdevRoundTrip.CreateThenRead`, `VdevRoundTrip.LeavesAgreeIff`: where each node of
  a configuration is read to and what its struct tells; what comes back of a pool that was created (no paths,
  no parities); and exactly when the two views of the leaves agree.
- `SendSize.SafeIff`: exactly when every interleaving of a `SendSize` call works; `SendSize.NoFalseSuccess`:
  however a call goes, it returns no error only if the send had none and everything it printed was read.

## Model

| member | source | states |
|---|---|---|
| Backend.Zfs.Promote | zfs.go:498-509 | takes over the snapshots up to the origin if there is no clash, otherwise changes nothing; a failed call changes nothing |
| Backend.Zfs.Rename | zfs.go:512-527 | gives an existing snapshot a free name, otherwise changes nothing |
| Backend.Zfs.Destroy | zfs.c:88-90 | removes a dataset without children, snapshots or clones; an absent name succeeds; a failure changes nothing |
| Pools.PromoteKeepsWF | zfs.c:131-133 | promotion keeps every pool invariant: owners and origins exist, names and txgs are unique, origins are older |
| Pools.RenameKeepsWF | zfs.c:135-137 | so does a rename to a free name |
| Pools.DestroyKeepsWF | zfs.c:88-90 | so does a permitted destruction |
| Pools.CloneGraphAcyclic | zfs.go:724-766 | in a well-formed pool no dataset is, directly or through others, a clone of itself |
| Backend.HistoryAt | zfs.go:724-766 | every recorded state is well formed and filesystems never reappear |
| Decimal.ParseFormat | sort.go:13-25 | the text of a txg is read back as that txg |
| HandleLists.ListCallback | zfs.c:41-53 | the first handle fills the first node, each later one is put in front, and the links stay intact |
| HandleLists.ListFree | zfs.c:32-39 | frees every node of the chain once and closes no handle |
| HandleLists.ListAll | zfs.c:92-101 | the list holds every reported handle exactly once, in reverse order; an empty report or a failed iteration gives no list, every node freed once and the handles left open |
| Handles.ListClose | zfs.c:21-30 | closes the handle and frees the node, and no other |
| Handles.Close | zfs.go:191-202 | leaves each node of the tree freed exactly once, and no guarded node freed twice, whatever was closed before |
| Handles.ReprApart | zfs.go:191-202 | trees without a common guard share no object |
| Opening.Walk | zfs.go:61-73 | one struct per node, in list order, each with a guard of its own |
| Opening.ListChildren | zfs.go:59-73 | the structs are exactly the dataset's children, each once, with separate handles |
| Opening.OpenChildren | zfs.go:59-79 | builds the whole subtree below the struct, true to the pool, with no handle shared |
| Opening.OpenEach | zfs.go:74-78 | each listed child gets its own subtree |
| Opening.DatasetOpenSingle | zfs.go:126-146 | opens exactly the names that exist, with the properties the pool has |
| Opening.DatasetOpen | zfs.go:116-122 | opens exactly the names that exist, as a live tree that reflects the pool |
| Opening.DatasetOpenAll | zfs.go:83-105 | opens the pool's root with its whole subtree |
| Opening.DatasetCloseAll | zfs.go:109-113 | every node of every given tree is freed exactly once |
| Trees.ReflectsIsShaped | zfs.go:59-79 | a true tree has well-placed names, no duplicates and readable txgs |
| Lookup.FindSnapshot | zfs.go:781-792 | finds the first cached snapshot of that name, if there is one |
| Lookup.FirstSnapFinds | zfs.go:781-792 | that is, exactly if a child snapshot has the name |
| Lookup.Snapshots | zfs.go:770-778 | the cached snapshots, in order |
| Lookup.SnapKidsAre | zfs.go:770-778 | all of them, nothing else, each once |
| HandOver.FindSnapshotName | zfs.go:796-798 | looks for the struct's own name followed by the snapshot's |
| HandOver.FindsSnapshots | zfs.go:796-798 | on a true tree this finds exactly the dataset's snapshots |
| Names.SnapshotsAreRecognized | zfs.go:240-244 | a name contains an at sign exactly if it names a snapshot |
| Names.PoolNames | zfs.go:312-319 | the text before the first slash is the pool, except for snapshots of the pool's root, which keep their name |
| Names.SplitNames | zfs.go:267-268 | splitting at the at sign gives the dataset and the snapshot |
| Names.ConflictNames | zfs.go:724-732 | the texts the conflict loop looks up and renames to are the names of the model |
| Names.SuffixedIsClean | zfs.go:730-732 | the suffixed name is again a name ZFS allows |
| Names.RenderInjective | zfs.go:786-788 | comparing names as texts is comparing the names |
| CloneOrder.LessIsStrictWeakOrder | sort.go:9-42 | on the lists `Clones` builds, `Less` never panics and is the descending order of (origin txg, own txg) |
| CloneOrder.Swap | sort.go:44-46 | exchanges two elements in place |
| CloneOrder.Sort | zfs.go:839 | a permutation in which each struct is at least as young as the later ones |
| CloneSearch.FrontierStep | zfs.go:816-837 | pulling the head and sending its open children keeps the queue the breadth-first frontier, each node discovered once, level by level |
| CloneSearch.MatchOrigin | zfs.go:820-832 | the txg of the snapshot an origin names, if it is the dataset or one of its snapshots |
| CloneSearch.Visit | zfs.go:818-836 | sends exactly the open children in order and collects the clones among them, or blocks on a full channel |
| CloneSearch.NotOverfull | zfs.go:813-837 | a breadth-first search whose queue emptied within the channel's capacity never needed more |
| CloneSearch.Search | zfs.go:813-837 | ends with an empty queue and every open node expanded, or blocks, exactly if at some point more than 1024 nodes would wait |
| CloneLists.VisitedIsVisible | zfs.go:816-837 | the search visits only datasets no foreign clone hides |
| CloneLists.VisibleIsVisited | zfs.go:816-837 | and every such dataset |
| CloneLists.FrontierIsVisible | zfs.go:813-835 | the queue never holds more than the visible datasets and snapshots, so it blocks only if there are more than 1024 |
| CloneLists.SortedIsCloneList | zfs.go:839-844 | the sorted collection is every visible clone exactly once, youngest origin first |
| CloneLists.Clones | zfs.go:803-848 | returns that list; fails only if the pool cannot be opened; blocks exactly if a breadth-first queue exceeds the channel, and only if more than 1024 names are visible |
| Choice.HitIsClone | zfs.go:820-832 | an origin matches exactly if the dataset is a clone, and carries its origin's txg |
| Choice.ListedIff | zfs.go:816-845 | a dataset is listed exactly if it is a clone of the filesystem and every dataset on the way below the root is no clone or such a clone |
| Choice.SnapListedIff | zfs.go:821-824 | the same for a snapshot |
| Choice.HeadIsTop | zfs.go:839-844 | with a youngest clone in sight the head of the list is a youngest clone, whatever else is hidden, and an empty list means there is none |
| Promotion.AnyOrder | zfs.go:743-747 | what is found whatever the order of the children is found in each |
| HandOver.ResolveOne | zfs.go:724-736 | a snapshot whose name the clone uses gets the suffixed name, any other keeps its own; the saved name is the new one |
| CachedOrders.OrdersAre | zfs.go:59-79 | an opened tree fixes the order in which the children of each of its filesystems are listed |
| HandOver.ResolveConflicts | zfs.go:721-737 | renames exactly the clashing snapshots and saves the new names in order; whatever names are taken, it gets to its end exactly if every taken suffixed name was an earlier clash |
| HandOver.SavedIsAll | zfs.go:736 | the saved list holds the new names of all the dataset's snapshots and nothing else |
| HandOver.ResolveAndPromote | zfs.go:721-741 | the loop and the promotion, once the clone is open; if they fail, the first so many cached snapshots had their turn in the loop and nothing else happened |
| HandOver.TakeOver | zfs.go:715-741 | ends with the snapshots handed over to the clone, or, failing, with nothing changed but names of the dataset's snapshots; without foreign failures it ends well exactly if the order and the moving names allow it |
| Consequences.NoConflictLeft | zfs.go:724-737 | after the loop dataset and clone share no snapshot name, exactly if the clone had no suffixed name of a clash |
| Consequences.SavedAreNewNames | zfs.go:724-737 | the saved names are exactly the dataset's names then |
| Promotion.ResolvedStep | zfs.go:728-735 | each rename of the loop is permitted exactly if the suffixed name is free in the dataset or was given up before |
| Promotion.ResolvedPromotes | zfs.go:738-740 | promoting is refused exactly if a snapshot that moves gets a name the clone uses |
| Promotion.PromotedIsHandedOver | zfs.go:738 | which snapshots move, under which names, and how the two origins change |
| Promotion.OnePromoteIsEnough | zfs.go:711-741 | after promoting the youngest clone no clone is left on a snapshot the dataset still owns |
| Destroying.DestroyOne | zfs.go:215-237 | destroys a struct without cached children exactly if the backend permits it; refuses one with children, but reports success for a closed one |
| Destroying.CleanUp | zfs.go:752-765 | removes only the clone's snapshots with a saved name, and leaves none of them that no dataset depends on; if the clone cannot be opened, nothing happens |
| Promotion.PassableIfFresh | zfs.go:728-751 | with fresh suffixed names every order lets a dataset through exactly if no snapshot that stays behind has a name of the clone |
| DestroySteps.SavedIsExposed | zfs.go:753-765 | where the promotion was possible, a saved name belongs to a snapshot the clone owned beforehand only if that one is exposed |
| DestroySteps.ExposedIsSaved | zfs.go:728-736 | the name of every exposed snapshot is saved |
| DestroySteps.CleanedOwn | zfs.go:753-765 | the clean-up leaves an exposed snapshot only if something holds it |
| DestroySteps.CleanedKept | zfs.go:753-765 | and destroys none that is held |
| OwnSnapshots.HeldFromStart | zfs.go:743-747 | what holds a snapshot when a child has its turn held it from the start |
| OwnSnapshots.HeldUntilTurn | zfs.go:743-747 | and what held it from the start, and is not gone by then, or its heir, still does |
| OwnSnapshots.HeldIffCloned | zfs.go:753-765 | unless a doomed dataset is a clone of the snapshot, to be held is to have a clone |
| DestroySteps.SelfCloned | zfs.go:749 | after its children went, the dataset can be destroyed exactly if every renamed snapshot that stayed behind has a name that was cached |
| PromoteAndDestroy.DestroyKids | zfs.go:743-747 | the children, in order: each is as good to destroy as the dataset was, and no other dataset is affected; if one fails, the later ones are as they were |
| Halts.AfterAreWhole | zfs.go:743-747 | while a child is worked on, later child filesystems are untouched with all below them |
| Halts.SecuredKid | zfs.go:743-747 | and so is what the promoted clone holds |
| Halts.KidFsHalts | zfs.go:743-747 | what is known when the call on a child filesystem failed |
| Halts.HaltedEarlier | zfs.go:743-747 | what a nested call left is the same in terms of the pool at the start |
| PromoteAndDestroy.Prepare | zfs.go:709-741 | the first phase ends with no clone left and the new names saved, or, failing, with nothing changed but the names of the clashing snapshots among the first so many |
| PromoteAndDestroy.DestroyedIsGone | zfs.go:749 | a filesystem that could be destroyed leaves nothing at or below it |
| PromoteAndDestroy.Finish | zfs.go:748-766 | the last phase destroys the dataset and sweeps the promoted clone; failing, it did nothing, or destroyed the dataset only |
| PromoteAndDestroy.InKidHalts | zfs.go:743-747 | a call that failed at a child: what became of the dataset's own snapshots, and of its clone's |
| PromoteAndDestroy.LastHalts | zfs.go:748-758 | and one that failed after all children |
| PromoteAndDestroy.DestroyPromote | zfs.go:701-767 | nothing outside the subtree is destroyed, ever; success leaves nothing of it, ever, and empties the cached children; on a prepared subtree the outcome below, and a failed call leaves what comes after the place where it stopped; without foreign failures success whenever every dataset gets through |
| Frames.FrameThen | zfs.go:743-747 | destroying one child after another adds up: outside datasets keep their origins unless promoted, promoted clones lose at most exposed snapshots, and snapshots lodge on the promoted clone of their owner only |
| KidSteps.KidInTurn | zfs.go:743-747 | what has its turn before a dataset at or below a child is above it, or belongs to an earlier child, or to the child |
| Siblings.ReleasedSame | zfs.go:707-747 | a clone promoted over an earlier dataset stands in the way of no later search |
| Siblings.TopsReachedSame | zfs.go:707-747 | so, given what was promoted, a youngest clone of each remaining dataset is found too |
| Siblings.PreparedSame | zfs.go:743-747 | what is needed for the next child holds after the children before it |
| Siblings.PassesSame | zfs.go:743-747 | nor is whether a dataset below it gets through |
| Siblings.ReflectsSame | zfs.go:743-747 | and the cached tree of the next child is still true |
| Removal.ProgressKid | zfs.go:743-747 | after a child filesystem is gone the dataset still has no clone and keeps what it owns |
| Removal.DestroyableIff | zfs.go:748-749 | the dataset can go exactly if the destroyed names covered everything it owned |
| Consequences.SurvivorsAndOrigins | zfs.go:693-767 | the survivors are exactly the filesystems outside the subtree (after every success, prepared or not, by `OpenDestroyPromote`), with their origins, and a promoted clone has its base's former origin |
| Consequences.OnePromotedEach | zfs.go:707-741 | over each doomed dataset with clones exactly one was promoted, the youngest |
| Consequences.SnapshotsAfter | zfs.go:753-765 | a snapshot owned outside is untouched, unless a promoted clone owned it and it was exposed; the others are gone, or on the promoted clone of their owner under their old name unless the clone used that one |
| Consequences.LeftIffNeeded | zfs.go:753-765 | of the moved snapshots exactly those with a clone are left |
| Consequences.EveryState | zfs.go:724-766 | every intermediate state is well formed and acyclic and has lost nothing outside the subtree |
| Consequences.SavedHitsOwnIff | zfs.go:728-765 | where a run can get to the clean-up, it names an own snapshot of the clone exactly if that one is exposed |
| Consequences.LostIff | zfs.go:753-765 | which snapshots owned outside a successful call destroys: exactly the exposed ones of promoted clones that nothing holds by then |
| Consequences.LostOnlyIf | zfs.go:753-765 | even if foreign calls failed, one that is gone was exposed, and all its clones were doomed |
| Consequences.FreshLosesNothing | zfs.go:753-765 | with fresh suffixed names every snapshot owned outside stays as it is |
| Consequences.ExposedIffYoungClash | zfs.go:724-765 | where a dataset gets through, something is exposed exactly if a snapshot that stays behind has a name of the clone |
| Consequences.OrdersAreTrue | zfs.go:59-79 | the listed orders hold the children in the pool, and among them the snapshots, each once |
| WholeCalls.LossIsExact | zfs.go:753-765 | the same as `LostIff` for all snapshots outside at once |
| WholeCalls.OpenDestroyPromote | zfs.go:701-767 | all of it for a call on a freshly opened dataset: what every success leaves, the outcome, what is lost, what a failure leaves, and success exactly if every dataset gets through in the listed orders |
| ClonedTree.TreeReached | zfs.go:743-747 | in a tree that was cloned recursively the child's clone is hidden before the call, and found when the child has its turn |
| ClonedTree.TreePrepared | zfs.go:743-747 | and all conditions for success hold of it |
| ClonedTree.TreeOutcome | zfs.go:743-766 | which leaves both clones promoted, without origins |
| Examples.TwoClonesPrepared | destroy_test.go:16-46 | all conditions for success hold of two clones of one dataset, size and ages included |
| Examples.TwoClonesOutcome | destroy_test.go:48-61 | and this is what must be left then |
| Examples.YoungClashPrepared | zfs.go:712-714 | a pool, small and with distinct ages, where only the clash of a younger snapshot stands in the way |
| Examples.YoungClashHandedOver | zfs.go:724-738 | its run up to the promotion |
| Examples.YoungClashFails | zfs.go:743-751 | which leaves a snapshot no cached name destroys, so the dataset stays |
| Examples.TakenPasses | zfs.go:724-736 | a pool with taken suffixed names where one order of the snapshots gets through and the other does not |
| Examples.TakenIsLost | zfs.go:753-765 | a pool that meets all other conditions, on which the clone has a snapshot to lose |
| Examples.TakenHandedOver | zfs.go:724-738 | the run of the conflict loop and the promotion in the order that gets through |
| Examples.OwnSnapshotLost | zfs.go:743-765 | after which the dataset goes and the clean-up destroys a snapshot of the clone's own |
| Examples.StaleNameTakesLater | zfs.go:743-747 | a child destroys by its stale name a snapshot that was cached later under another name |
| Examples.BusyPrepared | zfs.go:728-740 | a pool that meets all other conditions |
| Examples.BusyNeverPasses | zfs.go:728-740 | where a suffixed name is taken in the clone alone: the promotion is refused in any order |
| Examples.InnerFails | zfs.go:738-749 | a pool in which the youngest clone lies in the subtree: it takes over a snapshot nobody cached, and neither dataset can go |
| RecursiveDestroy.BelowChild | zfs.go:273-287 | the same-named snapshot of one live child filesystem, if there is one, with its chains; snapshots are skipped |
| Stops.SelfStays | zfs.go:284-290 | a failed call on a snapshot leaves that snapshot |
| Stops.OneMoreDone | zfs.go:254-261 | what is gone after one more child went with that child or an earlier one |
| Stops.StoppedAtKid | zfs.go:255-257 | when a child fails, what is gone went with an earlier child or within the failed call |
| Stops.StoppedAtLive | zfs.go:284-287 | the same for a snapshot and the live children |
| Stops.LaterFsStays | zfs.go:255-257 | no filesystem at or below a later cached child is gone |
| Stops.OwnSnapStays | zfs.go:255-257 | a snapshot of the dataset itself is gone only if it was cached before |
| Stops.LaterSnapStays | zfs.go:255-257 | a snapshot at or below a later child is gone only with an earlier snapshot of its name |
| RecursiveDestroy.DestroyBelow | zfs.go:266-289 | cuts exactly the same-named snapshots on chains strictly below; failing at a live child, none at or below later ones |
| RecursiveDestroy.DestroySnapshot | zfs.go:265-291 | and then the snapshot itself, which is left if anything below failed |
| RecursiveDestroy.DestroyEach | zfs.go:253-261 | the cached children one by one, each closed after it was destroyed; if one fails, exactly what came before is done and closed |
| RecursiveDestroy.DestroyRecursive | zfs.go:247-294 | removes nothing outside the subtree; on success everything in it; on failure only what comes before the place where it stopped; terminates by height of the cached tree, then size of the live subtree |
| RecursiveDestroy.SupersetKept | zfs.go:254-261 | a cached tree still lists everything although other calls destroyed some of it |
| Chains.CutChild | zfs.go:273-287 | chains below a child are the parent's chains through it |
| WholeCalls.NoCloneLeft | zfs.go:247-264 | a filesystem that was removed had no snapshot with a clone outside, whatever clones there are inside |
| WholeCalls.CloneFreeIff | zfs.go:247-264 | without clones inside that is to have no clone at all |
| WholeCalls.NoneNeeded | zfs.go:265-291 | a snapshot that was removed had no clone, nor had those that went with it |
| WholeCalls.OnlyOutsideLeft | zfs.go:247-264 | success leaves exactly what lies outside the subtree, unchanged |
| WholeCalls.OpenDestroyClose | zfs.go:247-294 | success only without clones outside, and exactly if there is no clone where none is inside; what a failure leaves; each node of the opened tree is freed exactly once |
| Examples.ChainGoesFirst | zfs.go:265-291 | a snapshot child takes a snapshot below a later child with it, before the call fails in between |
| Session.Run | zfs.go:191-202 | over any program of opens, copies of variables and of their children, closes and destroys every node is freed at most once |
| Session.Step | zfs.go:191-202 | what each statement does to the variables and the guards: opened and copied structs are appended, a closed one has no pointer and all guards of its tree are done, a destroyed one at most loses its children |
| Session.StepOpen | zfs.go:116-122 | opening appends a live tree of that name, or nothing |
| Session.ChildIsTracked | zfs.go:770-778 | a child struct copied out of a tree can be a variable of its own |
| Session.StepClose | zfs.go:191-202 | closing a variable keeps that, though its children keep their pointers |
| Session.StepDestroy | zfs.go:247-264 | so does destroying it, which closes copies of the children |
| Session.StepPromote | zfs.go:701-767 | and so does `DestroyPromote`, also on a closed struct without children; it drops the children unclosed |
| PoolHandles.PoolCallback | zpool.c:103-115 | prepends a pool handle, allocating a node each time |
| PoolHandles.PoolListFree | zpool.c:143-150 | frees every node of the chain once |
| PoolHandles.PoolListClose | zpool.c:152-155 | closes the first handle only, and frees the whole chain |
| PoolHandles.ListOpenAll | zpool.c:117-126 | the chain of all handles in reverse, or nothing and the nodes freed |
| PoolHandles.CutChain | zpool.go:471-481 | cuts the chain into lists of one node, in order |
| PoolHandles.PoolOpenAll | zpool.go:465-482 | every result has a list and a handle of its own, up to the first pool whose properties cannot be read |
| PoolHandles.PoolClose | zpool.go:629-634 | closes the one handle and frees the one node, or does nothing to a closed struct |
| PoolHandles.PoolCloseAll | zpool.go:485-489 | closes each handle and frees each node of a struct not yet closed once more per call, and skips closed ones; it closes copies, so a second call frees every node again |
| PoolHandles.CloseInOrder | zpool.go:629-634 | closing some results, once each and in any order, closes and frees exactly theirs |
| PoolHandles.OpenThenClose | zpool.go:465-489 | over the whole life of the results everything is closed and freed exactly once |
| VdevBuilding.IsGrouping | zpool.go:658-678 | the bounds it returns are those of the node's type, and parity is put between 1 and 254 |
| VdevBuilding.BoundsAre | zpool.go:658-678 | how many devices a node of each type may have |
| VdevBuilding.BuildVdev | zpool.go:724-767 | a device with its type, log flag, and, if it has a path, path and ashift |
| VdevBuilding.BuildOne | zpool.go:781-829 | a node is accepted exactly if it fits and, if it groups others, they are accepted |
| VdevBuilding.BuildVDevTree | zpool.go:769-846 | accepts exactly the specifications in which every node reached through grouping nodes fits; stores all of it or nothing |
| VdevBuilding.BuildVdevSpares | zpool.go:848-871 | stores the spares in order |
| VdevBuilding.BuildVdevL2Cache | zpool.go:873-896 | stores the cache devices under the same key, in place of the spares |
| VdevBuilding.StoredWithinBounds | zpool.go:801-812 | every stored raidz node has parity p between 1 and 254 and between p+1 and 255 children |
| VdevBuilding.StoredWhereSpecified | zpool.go:781-830 | every reached node is stored at its place, with the parity asked for if that is in range |
| VdevBuilding.StoredDescribes | zpool.go:724-830 | what is stored for a single device: its type, whole disk, no log, its path if it has one and then a positive ashift; for a grouping node: its type, as many children, and the parity of a raidz |
| VdevBuilding.LeavesDescribe | zpool.go:848-896 | the same for each spare or cache device, which may be of type log |
| VdevReading.PoolGetConfig | zpool.go:167-256 | reads exactly the readable configurations, keeping the last of several log children |
| VdevPlaces.TopTells | zpool.go:167-226 | what the struct of a node tells: type, guid, statistics, the path only if NOT_PRESENT was found, no parity; nothing of a missing device or a hole |
| VdevPlaces.KidsInPlace | zpool.go:227-254 | children that are no logs are read in order, and the last log apart |
| VdevPlaces.ReadInPlace | zpool.go:167-256 | each node the reader comes to and does not drop is in its place, under its name, and the struct there tells of it |
| VdevPlaces.ListTells | zpool.go:258-280 | a list is read exactly if each member can be, and member by member |
| VdevReading.PoolGetList | zpool.go:258-280 | reads a list in order, or fails on its first unreadable member |
| VdevReading.CollectLeaves | zpool.c:536-558 | adds the names of the nodes without children, except "indirect" |
| VdevRoundTrip.ReadIff | zpool.go:167-256 | reading succeeds exactly if every node it comes to has a type and, unless missing or a hole, statistics |
| VdevRoundTrip.NodeRoundTrip | zpool.go:724-846 | a built node is read back with its type, and with its whole shape exactly if only grouping nodes have devices |
| VdevRoundTrip.NodeComesBare | zpool.c:443-453 | and without its path and parity |
| VdevRoundTrip.LeavesRoundTrip | zpool.go:848-871 | spares come back in order |
| VdevRoundTrip.SparesRoundTrip | zpool.go:832-844 | with cache devices, these come back as the spares |
| VdevRoundTrip.StoredIsDescribed | zpool.go:769-896 | every reached node, and every spare or cache device, is stored in its place with the contents it should have |
| VdevRoundTrip.BuildRoot | zpool.go:899-920 | the configuration `PoolCreate` makes, so described, or none |
| VdevRoundTrip.ReadRoot | zpool.go:1048-1069 | the tree, spares and cache devices; an error on the spares goes unnoticed |
| VdevRoundTrip.CreateThenRead | zpool.go:899-920 | creating and reading back a pool, end to end: types and order come back, paths and parities do not |
| VdevRoundTrip.LeavesAgree | zpool.c:536-558 | with at most one log child per level and nothing below missing devices, the reader's leaves are the collected names, but for "indirect" |
| VdevRoundTrip.LastLogIsKept | zpool.go:249-253 | of several log children the last is kept |
| VdevRoundTrip.KidsAgreeIff | zpool.go:249-253 | the children contribute the same names to both views exactly if at most one of them is a log and they agree themselves |
| VdevRoundTrip.LeavesAgreeIff | zpool.c:536-558 | if all names are different, the two views agree exactly if no node has two log children and nothing is below missing devices and holes |
| VdevRoundTrip.TwoLogsDisagree | zpool.go:249-253 | a configuration with two logs, as an example |
| SendSize.InvAlways | sendrecv.go:226-276 | in every interleaving: which descriptors are open, that no output is lost or reordered, and where the two sides can be |
| SendSize.ConservedKept | common.c:69-77 | read, piped, buffered and unprinted text always add up to the whole output |
| SendSize.EofSeesAll | sendrecv.go:257-261 | the end of the pipe is reached only after everything was read |
| SendSize.RunsEnd | sendrecv.go:226-276 | every run is bounded by the length of the output |
| SendSize.StuckIs | sendrecv.go:226-276 | a run stops only when it has ended, has panicked, or is deadlocked |
| SendSize.AnswerKept | sendrecv.go:226-276 | what the caller returns, on every way out: that the deadline passed, that the number is out of range, or the number and what the goroutine handed over |
| SendSize.NoFalseSuccess | sendrecv.go:226-276 | a call that returns no error had none in the send, and its number is the one in all that was printed |
| SendSize.SafeRuns | sendrecv.go:226-276 | with stdout restored, no timeout and a number in range: no panic, no deadlock, all output read, one value received before the channel is closed, and returned: nil exactly if stdout was redirected and the send succeeded |
| SendSize.Deadlocks | common.c:69-77 | if stdout was redirected and is not restored, every run without timeout deadlocks |
| SendSize.CanPanic | sendrecv.go:229-235 | after a timeout or an unreadable number the channel can be closed under the sender |
| SendSize.SafeIff | sendrecv.go:226-276 | exactly the safe settings work in every interleaving |

## Left out

- Properties other than name, type, origin and creation txg, their getters and setters, and failures of
  `ReloadProperties` on a dataset; with them the branch of `Destroy` that reports a failed `GetProperty`.
- libzfs itself, mounting, holds and permissions: one refused call stands for all their failures, and
  forced unmounting and deferred destruction are not told apart.
- Leaks are not counted: the handles an iteration had opened when it failed stay open, and so do those of
  the children `DestroyPromote` drops.
- Several imported pools at once: `DatasetOpenAll` is modelled with one.
- The body of Go's sort routine: an insertion sort over `Less` and `Swap` stands for it.
- Names are structured; `Names` shows that the string operations agree with the structure on names whose
  components are as ZFS allows them.
- A closed or half-closed tree passed to `DestroyPromote` or `DestroyRecursive`: `Session.Run` ends a
  program there, also where the call would return an error before it comes to a freed pointer. A closed
  struct without children is not such a tree: the calls on it are in the model.
- Deferred closes of trees that a call opened for itself happen in the model as soon as the tree is no
  longer used; they touch nothing else.
- Failed allocations while building a device tree; guids and statistics are single numbers, the scan
  statistics are absent, and libzfs's device naming is a parameter. The outcome of `strconv.Atoi` on the
  ashift property is a parameter too.
- The rest of `PoolCreate` (features, properties), import, export and the other pool operations.
- What `SendSize` parses: whether a text holds a number in range, and which, are parameters. A failed `os.Pipe`, and
  overlapping calls, are not modelled; neither is the descriptor `redirect_libzfs_stdout` loses when its
  second step fails.
- `SendFrom`, `Receive`, resume tokens, bookmarks and flag conversion.
- Opening.DatasetOpenAll: covers one imported pool, because the backend has one.
- Subtrees in which one dataset is a clone of another, or in which no youngest clone of a dataset is found
  when its turn comes: of a `DestroyPromote` on them only what holds of every run is stated. The same goes
  for a `DestroyPromote` on a snapshot that has clones.
