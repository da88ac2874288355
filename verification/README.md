# Verification of the Physis distributed runtime

Physis runs stencil kernels over global grids. Its MPI runtime splits every grid
over a process grid, and the split must not be visible: scattering, halo
exchange, fetching of remote boxes, reductions and the translator's choice of
what to fetch must together give what one process with the whole grid would
compute. This project models that machinery and proves it, as one refinement
argument in five layers:

1. **Decomposition** (`MixedRadix`, `Decomposition`, `GridSpace`, `Geometry`):
   ranks and process indices are in bijection, partitions tile the space,
   neighbours form rings, clipped grids and domains meet every cell once, and a
   fetch plan cuts a requested box into disjoint pieces, one per owner.
2. **Strided copies** (`Subgrid`, `Rpc`): the worklist copies are gather and
   scatter of a row-major box, and undo each other; copying a grid in and out
   again is the identity and writes every cell once.
3. **Halo exchange** (`HaloExchange`, `HaloWidths`, `HaloFlag`, `HaloMisread`,
   `HaloPack`, `GridMPI`, `HaloMatch`): after the exchange every covered index,
   corners that travelled over several processes included, is read as the value
   of the global grid, exactly if each neighbour holds what may be read in it;
   a process's reader is right for every grid exactly if its flag is in order
   and no fetched remote grid is active; the pointer-walking packers produce the
   layout that the reader assumes; and sends and receives match one to one.
4. **LoadSubgrid** (`LoadProtocol`, `LoadInvariant`, `LoadTheorems`,
   `LoadResult`, `LoadRounds`, `RemoteGrid`, `GridGet`, `GridSet`,
   `SubgridRead`): a step
   relation over FIFO channels with header and payload as separate messages.
   Every run keeps the invariant; framing, safe exit, progress, termination,
   empty channels at the end, and the fetched data follow, and with them when
   gets and sets of single cells and the reads of kernels that load subgrids
   are right.
5. **Translator analyses** (`StencilAnalysis`, `StencilRange`, `LoadNeighbor`,
   `Overlap`, `DefAnalysis`).

On top of everything is **the refinement** (`Refinement`, `Flags`): any number of
rounds of any list of stencils on the distributed grids equals as many sweeps
over the global grids. `Schedule`, `HaloSchedule` and `RunSchedule` lift this
from processes that move in step to processes that run the whole loop at their
own pace, with no barrier between exchanges, stencils or rounds, and `Program`
joins it with copying grids in and out. `Reduction` does the same for the
reductions.

Conventions. An index vector is a sequence with one entry per dimension, for any
number of dimensions (the packers, the in-place reader and domain boundaries are
three-dimensional as in the code). Grid elements are exact reals, and sizes
count elements rather than bytes; where code reads past a buffer, 0 stands for
what it finds there. `PSIndex` is an unbounded integer. A grid's
`global_offset` is 0 (asserted at runtime/mpi_runtime.cc:296), and for halos a
grid is as large as the grid space. MPI sends copy their message at once, and
messages between two processes do not overtake each other (section 3.5 of
MPI 2.2).

Names of the modelled code's functions are kept. Methods follow the loops of the
source and are proved against functions (`Lin`, `Gather`, `Scatter`, `Locate`,
`Pack`, `HaloShape`, `Fold`), about which the lemmas then state what the source
promises.

## Where the code does not keep its promise

Each has a lemma with a failing case, and the exact condition where one is known.

- `remote_grid_active` stays set after a remote `GridGet`. A later get of an own
  cell then reads the stale remote grid: `GridGet.StaleGet`, and
  `GridGet.GetIsRightIff` for the condition. A later set of an own cell is lost
  in it: `GridSet.StaleSet`, `GridSet.GetThenSet` for the run that leads there,
  and `GridSet.SetIsRightIff`. And a kernel reads it instead of the grid, as the
  generated code clears it only for grids that it loads with `LoadSubgrid`
  (translator/mpi_translator.cc:313, 320-336): `HaloMisread.ActiveMisreads`, and
  `HaloMisread.ReaderRightIff`.
- `halo_has_diagonal_` is set only when a process sends
  (runtime/grid_mpi.cc:292), so a process that only receives reads its corners
  with the wrong layout: `HaloFlag.BackwardOnly`, `HaloFlag.FlagExact` for the
  addresses and `HaloMisread.ReaderRightIff` for the values.
- The guard at runtime/grid_mpi.cc:996-997 never fails and does not compare the
  widths with the partitions: `LoadNeighbor.AlwaysOverlaps`, `HaloWidths.TooWide`,
  `HaloWidths.ExchangeRightIff` for when reads are right, and
  `LoadNeighbor.ExchangeFits` for when only own cells are sent. (Comparing with
  the shortest partition would ask too much: `HaloWidths.WiderThanShortest`.)
- The barrier between rounds of `LoadSubgrid` is commented out
  (runtime/grid_mpi.cc:876). A process that has left a round may send a request
  of the next one to a process that still waits for an announcement, which then
  answers from the grid of its own round: `LoadRounds.RoundsMix`. The round that
  was left is not harmed: `LoadTheorems.SafeExit`.
- The free function `LoadSubgrid` (runtime/grid_mpi.cc:1055-1088) ignores the
  upper offsets, so that cells behind the box at the lowest offset are read and
  not fetched: `SubgridRead.UpperOffsetIgnored`, and `SubgridRead.ServesIff` for
  when all that is read is fetched.
- In a periodic exchange a process with cells waits for a neighbour without any,
  which sends nothing: `HaloMatch.MessagesMatchIff`.
- The default value of a maximum is `FLT_MIN`, the smallest positive float, and
  doubles use the defaults of floats (runtime/grid_mpi.cc:1102):
  `Reduction.MaxOfZeros`, and `Reduction.ReduceIsRightIff`.
- The reader loops over `PS_MAX_DIM` dimensions (runtime/mpi_runtime.cc:85) and
  takes own cells of a grid of fewer dimensions for halo cells:
  `GridMPI.UnsetDimensionMisread`, and `GridMPI.OwnFoundIff`.
- `AnalyzeStencilIndex` ignores whether the analysis of an operand succeeded
  (translator/stencil_analysis.cc:94-95) and drops a variable that is no loop
  index: `StencilAnalysis.VariableIsDropped`, and
  `StencilAnalysis.RightIffLegitimate`. It rejects `i + j`, but reads
  `(i + j) + k` as `k`: `StencilAnalysis.SumIsSwallowed`, and
  `StencilAnalysis.AcceptedIffLegitimate`.
- `StencilIndexListInitSelf` builds a list that is one entry short:
  `StencilRange.StencilIndexListInitSelf`.
- Boundary kernels read without halo past the box unless the box goes on for two
  widths, which nothing checks: `Overlap.RoomyIsExact`.

## Model

| member | source | states |
|---|---|---|
| MixedRadix.DigitsOfLin | runtime/grid_mpi.cc:428-435 | splitting the position of an index vector by the extents, dimension 0 first, gives the vector back |
| MixedRadix.LinOfDigits | runtime/grid_mpi.cc:428-435 | every position below the volume is the position of the vector it splits into, which lies in the box |
| MixedRadix.LinInjective | runtime/grid_util.cc:18-28 | two vectors of a box at the same linear position are equal |
| MixedRadix.LinStep | runtime/grid_util.cc:18-28 | a step along dimension d moves the position by the volume of the dimensions before d |
| MixedRadix.LinearOffset | runtime/grid_util.cc:18-28 | the accumulating loop computes the row-major position |
| MixedRadix.SplitIndex | runtime/grid_mpi.cc:428-435 | the div/mod loop computes the index vector at a rank |
| Decomposition.PartitionBalanced | runtime/grid_mpi.cc:437-453 | partitions cover exactly the extent, differ by at most one cell, are never shorter than an earlier one, and the shortest has floor(size/n) cells |
| Decomposition.Owner1DUnique | runtime/grid_mpi.cc:437-453 | every coordinate lies in exactly one partition |
| Decomposition.RankBijection | runtime/grid_mpi.cc:973-981 | rank to index and index to rank are inverse, both ways, for any process grid |
| Decomposition.RankSteps | runtime/grid_mpi.cc:973-981 | ranks count from 0 at the origin, by one along dimension 0 and by the product of the earlier extents along any other |
| Decomposition.OwnerUnique | runtime/grid_mpi.cc:482-494 | every cell of the space is in the box of exactly one rank |
| Decomposition.NeighborsInverse | runtime/grid_mpi.cc:482-494 | forward and backward neighbours are inverse permutations that move along one dimension only |
| Decomposition.NeighborRing | runtime/grid_mpi.cc:482-494 | walking forward returns to the start after proc_size steps and not earlier |
| Decomposition.NeighborBoxes | runtime/grid_mpi.cc:482-494 | the forward neighbour's box starts where this one ends, or at 0 behind the last, and agrees in the other dimensions |
| Decomposition.ClipExact | runtime/grid_mpi.cc:501-512 | a cell is in the clipped local part exactly if its place in the space is in the process box |
| Decomposition.LexEmpty | runtime/mpi_runtime.cc:257-261 | a box that is empty in the lexicographic comparison has no cell |
| Decomposition.LexLessIff | runtime/mpi_runtime.cc:257-261 | the first coordinate in which two arrays differ decides the comparison |
| GridSpace.Partition | runtime/grid_mpi.cc:422-456 | the loops fill partitions, offsets, process indices and the shortest lengths of the decomposition |
| GridSpace.NeighborRanks | runtime/grid_mpi.cc:482-494 | the loop finds both neighbours of the decomposition in every dimension |
| GridSpace.GridSpaceMPI.constructor | runtime/grid_mpi.cc:458-495 | the fields hold the decomposition of the given extents as seen by the rank |
| GridSpace.GridSpaceMPI.GetProcessRank | runtime/grid_mpi.cc:973-981 | the rank of a process index |
| GridSpace.GridSpaceMPI.PartitionGrid | runtime/grid_mpi.cc:501-512 | local offset and size are those of the exact clip |
| GridSpace.GridSpaceMPI.DomainNew | runtime/mpi_runtime.cc:250-266 | a point is in the local domain exactly if it is in the domain and in the process box, in spite of the lexicographic test that collapses empty domains |
| GridSpace.GridSpaceMPI.CollectPerProcSubgridInfo | runtime/grid_mpi.cc:736-781 | the list is a fetch plan of the request: distinct peers, exactly those whose box meets it, each with the clip of the request to its box |
| GridSpace.PieceInside | runtime/grid_mpi.cc:736-781 | pieces of a plan are non-empty, inside the request and inside the peer's box |
| GridSpace.PieceExact | runtime/grid_mpi.cc:736-781 | a cell is in a piece exactly if it is requested and the peer owns it |
| GridSpace.PiecesDisjoint | runtime/grid_mpi.cc:736-781 | two pieces have distinct ranks and no common cell |
| GridSpace.FetchTiles | runtime/grid_mpi.cc:736-781 | every requested cell of the grid is in exactly one piece, its owner's |
| GridSpace.NonEmptyFetch | runtime/grid_mpi.cc:736-781 | a request that is empty in some dimension has an empty plan |
| GridSpace.UnitFetch | runtime/grid_mpi.cc:1046-1053 | a request for one cell has exactly one piece, at the cell's owner |
| GridSpace.GridSpaceMPI.FindOwnerProcess | runtime/grid_mpi.cc:1046-1053 | the returned rank, and no other, holds the cell |
| Geometry.GeometryOfConfig | runtime/grid_mpi.cc:458-512 | what the processes together know about a decomposition is a valid geometry: boxes in the grid, not shorter than the shortest partition unless empty, neighbours continuing each other |
| Geometry.ConfigTiles | runtime/grid_mpi.cc:458-512 | the boxes of that geometry tile the grid |
| Subgrid.CollectLines | runtime/grid_util.cc:41-57 | the worklist holds the starts of the lines of the box in row-major order |
| Subgrid.CopyoutSubgrid | runtime/grid_util.cc:30-78 | fills the buffer with the row-major gather of the box, ends exactly behind it, and changes nothing else |
| Subgrid.CopyinSubgrid | runtime/grid_util.cc:80-120 | the grid becomes its scatter: the box overwritten from the buffer, all else as before |
| Subgrid.CellPosInBox | runtime/grid_util.cc:30-78 | position k of a gathered box is the cell at offset plus the digits of k |
| Subgrid.GatherAt | runtime/grid_util.cc:30-78 | the gathered buffer holds cell offset + u at the position of u |
| Subgrid.ScatterAt | runtime/grid_util.cc:80-120 | after a scatter a cell holds its buffer entry if it is in the box, its old value otherwise |
| Subgrid.GatherOfScatter | runtime/grid_util.cc:30-120 | copying a box in and out returns the buffer |
| Subgrid.ScatterOfGather | runtime/grid_util.cc:30-120 | copying a box out and in leaves the grid as it was |
| Subgrid.GatherTwice | runtime/grid_util.cc:30-78 | a box gathered from a gathered box holds the cells of the grid |
| Subgrid.GatherElsewhere | runtime/grid_util.cc:80-120 | writing a box leaves every box apart from it unchanged |
| HaloExchange.WrapIsModulo | runtime/grid_mpi.cc:551-646 | wrapping around the grid is the index modulo the size |
| HaloExchange.PackAt | runtime/grid_mpi.cc:291-345 | a packed halo holds, at the position of u, what the sender reads at the start of its region plus u |
| HaloExchange.NothingReceived | runtime/grid_mpi.cc:592-616 | in a direction in which nothing is received, width and extents of the halo become zero and its buffer stays |
| HaloExchange.StepReads | runtime/grid_mpi.cc:551-664 | exchanging dimension d makes all its halos readable on every process, given those of the later dimensions |
| HaloExchange.ExchangeReadsGlobal | runtime/grid_mpi.cc:690-707 | after dimensions d and later every process reads, at every index they cover, corners included, the value of the global grid, modulo the size if periodic |
| HaloExchange.FitsReaches | runtime/grid_mpi.cc:612-643 | if every process that sends holds the width it sends, and none waits for an empty one, every neighbour holds what may be read in it |
| HaloWidths.SendsOwnIff | runtime/grid_mpi.cc:291-323 | every cell that a process sends lies in its own box along the dimension exactly if it holds at least the width it sends |
| HaloWidths.ExchangeRightIff | runtime/grid_mpi.cc:690-707 | every read of every grid from every starting state is right exactly if each neighbour of a process with cells holds what the process may read in it, up to the end of a non-periodic grid |
| HaloWidths.TooWide | runtime/grid_mpi.cc:299-321 | four cells on four periodic processes with width 2: more is sent than is held, and some read is wrong |
| HaloWidths.WiderThanShortest | runtime/grid_mpi.cc:994-1009 | five cells on two processes with forward width 3: wider than the shortest partition, and every read is right |
| HaloFlag.FlagAfter | runtime/grid_mpi.cc:291-292 | after the exchange the flag is the requested one exactly on processes that sent, and the old one elsewhere |
| HaloFlag.FlagExact | runtime/mpi_runtime.cc:83-103 | the reader finds every covered cell exactly if the process sent, or its flag was right already, or it received no corner |
| HaloFlag.HaloReads | runtime/mpi_runtime.cc:73-107 | with the flag in order and no active remote grid the reader, using the process's own flag, returns the value of the global grid at every covered index |
| HaloFlag.BalancedFlag | runtime/grid_mpi.cc:551-646 | the flag is in order on every process if the exchange is periodic or forward and backward widths are zero or positive together |
| HaloFlag.BackwardOnly | runtime/grid_mpi.cc:291-292 | a process at the end of a non-periodic grid in an exchange with backward widths only looks for a cell in the wrong place |
| HaloFlag.ShapesAfter | runtime/grid_mpi.cc:37-55 | every halo that was received has the extents that SetHaloSize computes |
| HaloFlag.AgreeAfter | runtime/grid_mpi.cc:22-55 | receiver and neighbour agree on the widths that the shape of a halo depends on |
| HaloFlag.LengthAfter | runtime/grid_mpi.cc:563-597 | what was received has the length that the receiver computed |
| HaloMisread.ReaderRightIff | runtime/mpi_runtime.cc:73-107 | in an exchange in which neighbours hold what may be read, a process reads every grid right exactly if its flag is in order and its remote grid is not active |
| HaloMisread.ActiveMisreads | runtime/mpi_runtime.cc:75-81 | with an active remote grid some grid is misread at an own cell |
| HaloMisread.WrongFlagMisreads | runtime/mpi_runtime.cc:83-103 | with a wrong flag the grid that is 1 at one cell next to the box is misread, whoever holds that cell |
| HaloMisread.ExchangeOnlyAt | runtime/grid_mpi.cc:690-707 | after a non-periodic exchange of a grid that is 1 at one cell, every halo of every process is 0 except where it stands for that cell |
| HaloPack.OffsetIsCalcOffset | runtime/mpi_runtime.cc:44-57 | the positions that the packers walk are those of the offset formula |
| HaloPack.CopyoutHalo3D0 | runtime/grid_mpi.cc:213-260 | five advancing pointers over own cells and the halos of dimensions 1 and 2 fill the buffer with the packed halo of dimension 0 |
| HaloPack.CopyoutHalo3D1 | runtime/grid_mpi.cc:262-288 | three boxes from the halos of dimension 2 and the own cells are the packed halo of dimension 1 |
| HaloPack.PlainPack | runtime/grid_mpi.cc:315-323 | without diagonal points the packed halo is a box of the own cells |
| HaloPack.LastPack | runtime/grid_mpi.cc:294-305 | the packed halo of the last dimension is a contiguous part of the own cells, so a pointer into them can be sent |
| GridMPI.GetAddr | runtime/mpi_runtime.cc:73-107 | the position in the remote grid if it is active, counted from its own offset (`SubgridRead.RemoteReads`), and otherwise the place that the layout assigns to the index, found by in-place index arithmetic |
| GridMPI.GridCalcOffset3D | runtime/mpi_runtime.cc:67-70 | the offset formula is the row-major position |
| GridMPI.UnsetDimensionMisread | runtime/mpi_runtime.cc:85-103 | an own cell of a two-dimensional grid is looked up in the forward halo of dimension 2 |
| GridMPI.OwnFoundIff | runtime/mpi_runtime.cc:85-103 | the reader finds every own cell of a grid of n dimensions exactly if the local extents of the other dimensions are positive |
| GridMPI.OwnFoundFull | runtime/mpi_runtime.cc:85-103 | with those extents left at zero, exactly if n is PS_MAX_DIM |
| GridMPI.ReadyToPack | runtime/grid_mpi.cc:690-707 | when a process sends in a dimension, it holds the width, and the later dimensions were exchanged with the shapes that packing needs |
| GridMPI.PackLength | runtime/grid_mpi.cc:291-345 | the length of a packed halo is the volume of its shape |
| GridMPI.GridMPI.CalcHaloSize | runtime/grid_mpi.cc:22-35 | the number of cells is the volume of the shape that SetHaloSize sets |
| GridMPI.GridMPI.SetHaloSize | runtime/grid_mpi.cc:37-55 | sets the shape of one halo and changes nothing else |
| GridMPI.GridMPI.GetHaloBuf | runtime/grid_mpi.cc:191-210 | the send buffer is large enough, stays the grid's own or is new, and no other state changes |
| GridMPI.GridMPI.CopyoutHalo | runtime/grid_mpi.cc:291-345 | afterwards the send pointer of the dimension points at the packed halo, the flag is set and everything else is as before |
| HaloMatch.NeighborPair | runtime/grid_mpi.cc:551-646 | neighbours are neighbours both ways, and one of them sends exactly if the other waits for it |
| HaloMatch.SameCells | runtime/grid_mpi.cc:558-561 | both compute the same number of cells for a halo |
| HaloMatch.MessagesSized | runtime/grid_mpi.cc:558-643 | every send and every posted receive is as long as the halo that the sender packs for it |
| HaloMatch.MessagesMatch | runtime/grid_mpi.cc:551-664 | for every pair of processes, equal ones and two-process rings included, the list of sends is the list of receives: direction and size, in order |
| HaloMatch.MessagesMatchIff | runtime/grid_mpi.cc:551-664 | all messages of a dimension match exactly if no process with cells exchanges periodically with an empty one |
| Schedule.Independent | runtime/grid_mpi.cc:648-664 | in every state of every run of processes that send and receive at their own pace, each is in the state in which it is after as many phases when all move in step, if in step all messages match |
| Schedule.Progress | runtime/grid_mpi.cc:648-664 | as long as a process has not finished some process can send or receive |
| Schedule.Ends | runtime/grid_mpi.cc:648-664 | a run has at most two steps for every process and phase |
| Schedule.Result | runtime/grid_mpi.cc:648-664 | when all have finished they are where they end in step, and no message is left |
| HaloSchedule.ExpectedMessages | runtime/grid_mpi.cc:568-571 | what one process sends another in a dimension is as many messages as the other waits for, and they are the halos it takes them for, also where both neighbours are one process |
| HaloSchedule.ExchangeLeads | runtime/grid_mpi.cc:690-707 | in step, the phases of an exchange leave a grid as the exchange of all processes does, and all their messages match |
| LoadInvariant.InitHolds | runtime/grid_mpi.cc:916-932 | the invariant holds when a round starts with empty channels |
| LoadInvariant.StepKeeps | runtime/grid_mpi.cc:916-966 | every step of every process, by any schedule, keeps the invariant and decreases the measure |
| LoadTheorems.RunInvariant | runtime/grid_mpi.cc:916-966 | the invariant holds at the end of every run, whose length the measure bounds |
| LoadTheorems.Framing | runtime/grid_mpi.cc:709-724 | on every channel in every reachable state, whatever the receiver does, a header names its sender and the message behind the header of a request or reply is its own payload; and a receive always finds what it expects at the head |
| LoadTheorems.RemainingIsExact | runtime/grid_mpi.cc:933-961 | remaining_requests is the number of peers with a request sent and not completely answered |
| LoadTheorems.SafeExit | runtime/grid_mpi.cc:933-966 | when a process has left, nothing is in flight to it and every process has sent all its requests and has every answer |
| LoadTheorems.Progress | runtime/grid_mpi.cc:916-966 | as long as not all have left some process can step |
| LoadTheorems.Termination | runtime/grid_mpi.cc:916-966 | every run of n processes has at most 12 n n + 4 n steps |
| LoadTheorems.AllOutAllEmpty | runtime/grid_mpi.cc:916-966 | when all have left every channel is empty |
| LoadRounds.LeavesEarly | runtime/grid_mpi.cc:933-966 | a process can leave a round while another still waits for an announcement and nothing is in flight between them |
| LoadRounds.RoundsMix | runtime/grid_mpi.cc:876 | a process that has left sends a request of the next round, and one that has not answers it from the grid of the round that it is in |
| LoadResult.RunRemote | runtime/grid_mpi.cc:812-828 | in every reachable state the remote grid holds every piece whose answer was stored |
| LoadResult.AllFetched | runtime/grid_mpi.cc:795-828 | a process that has left holds every piece it requested, for any order of the answers |
| LoadResult.LoadRoundValid | runtime/grid_mpi.cc:871-932 | the plans of all processes make a round to which the protocol theorems apply |
| LoadResult.RequestsNothingIff | runtime/grid_mpi.cc:889-914 | a process sends no request exactly if it holds every cell of the grid that it asks for, of which there may be none |
| LoadResult.AnswerIsGlobal | runtime/grid_mpi.cc:795-810 | what the owner copies out for a piece are the global values of the piece |
| LoadResult.LoadDelivers | runtime/grid_mpi.cc:871-971 | a process that does not hold every cell it asks for leaves with a remote grid equal to the gather of the requested box from the global grid |
| GridGet.RoundLeaves | runtime/grid_mpi.cc:871-971 | at the end of every run of a round the remote grid of a process is what it was if the process holds all it asked for, and the requested box of the global grid, active, otherwise |
| GridGet.GetIsGlobal | runtime/rpc_mpi.cc:363-375 | at the end of every run of the round of a get, reading the cell returns the value of the global grid unless the remote grid was already active for an own cell |
| GridGet.StaleGet | runtime/grid_mpi.cc:830-840 | after a remote get a get of an own cell can return another value |
| GridGet.GetIsRightIff | runtime/rpc_mpi.cc:363-375 | after an earlier remote get, a get is right for every grid exactly if the remote grid is inactive or the cell is not an own one |
| GridSet.SetRefines | runtime/rpc_mpi.cc:401-421 | setting a cell on its owner sets it in the global grid and nothing else, unless the remote grid of the owner is active |
| GridSet.GlobalSet | runtime/rpc_mpi.cc:401-421 | the global grid with a cell set holds the value there and its old values elsewhere |
| GridSet.StaleSet | runtime/grid.cc:71-73 | with an active remote grid on the owner the grid stays as it was, and a set that should change it is lost |
| GridSet.SetIsRightIff | runtime/grid_mpi.cc:830-840 | a set is right for every grid and value exactly if the remote grid of the owner is not active |
| GridSet.GetThenSet | runtime/rpc_mpi.cc:363-421 | after every run of a get of another process's cell a set of an own cell is lost |
| SubgridRead.RemoteReads | runtime/mpi_runtime.cc:75-81 | with an active remote grid that holds a box of the global grid, the reader returns the global value of every cell of that box |
| SubgridRead.SubgridReads | runtime/grid_mpi.cc:871-971 | at the end of every run of a round a kernel reads every cell of the box its process asked for as the global one, unless that box is its own and an older remote grid is active |
| SubgridRead.SubgridBox | runtime/grid_mpi.cc:1055-1088 | the request consists, in each dimension, of exactly the values in the grid that the index takes on the process box at the lower offset, for loop indices, negated ones and fixed points |
| SubgridRead.ServesIff | runtime/grid_mpi.cc:1055-1088 | that serves all offsets up to the upper one exactly if they are one, or the box at the lower one goes to the end of the grid, or at the upper one it ends before the grid |
| SubgridRead.UpperOffsetIgnored | runtime/grid_mpi.cc:1055-1088 | a process with two of four cells that reads its next cell does not ask for it |
| SubgridRead.ServedIsRead | runtime/grid_mpi.cc:1055-1088 | where the request serves the offsets, every read of the kernel in the grid returns the global value |
| Rpc.GridCopyin | runtime/rpc_mpi.cc:195-254 | every process, empty ones included, ends up with its part of the buffer |
| Rpc.GridCopyout | runtime/rpc_mpi.cc:256-307 | the destination is overwritten part by part, skipping empty processes |
| Rpc.WrittenOnce | runtime/rpc_mpi.cc:266-290 | every element of the destination is written by exactly one process |
| Rpc.CopyoutOfCopyin | runtime/rpc_mpi.cc:195-307 | copying in and out reproduces the buffer in any destination |
| Rpc.HoldingIsParts | runtime/rpc_mpi.cc:195-254 | processes hold a grid exactly if their buffers are the parts of it |
| Rpc.CopyinRunCopyout | runtime/rpc_mpi.cc:195-350 | copy grids in, run any rounds of any stencils with the flags in order and no active remote grid, copy a grid out: the buffer holds what as many global sweeps produce |
| Program.ProgramRuns | runtime/rpc_mpi.cc:195-350 | the same for freshly created grids, under every schedule of the processes, for stencils whose exchanges need no flag or are not diagonal |
| Reduction.FoldSwap | runtime/reduce.h:33-54 | folding a table by rows or by columns gives the same value |
| Reduction.ReduceGridMPI | runtime/grid_mpi.cc:375-387 | the loop returns the number of cells and, if there are any, their sum, their product, their greatest or their least |
| Reduction.PartsFold | runtime/grid_mpi.cc:375-402 | folding the non-empty parts and then the results is the row-major fold of the global grid |
| Reduction.ReduceIsFold | runtime/grid_mpi.cc:1093-1113 | the reduction is the fold of the global grid, joined with the default value if a process is empty |
| Reduction.ReduceIsRightIff | runtime/reduce.h:56-83 | the reduction is right exactly if no box is empty, or the operation is a sum or a product, or some cell is at most FLT_MAX for a minimum, at least FLT_MIN for a maximum |
| Reduction.FoldStep | runtime/reduce.h:33-54 | one more cell is added to a sum, and multiplied into a product |
| Reduction.FoldExtreme | runtime/reduce.h:33-54 | the fold of a maximum, or minimum, is a cell that bounds all others |
| Reduction.ReducedTotal | runtime/grid_mpi.cc:1093-1113 | the reduced sum, or product, is that of all cells of the global grid, empty processes or not |
| Reduction.ReducedExtreme | runtime/grid_mpi.cc:1093-1113 | the reduced maximum, or minimum, is the greatest, or least, of the cells, with FLT_MIN, or FLT_MAX, among them if a box is empty |
| Reduction.MaxOfZeros | runtime/reduce.h:62-83 | with an empty process the maximum of zeros is FLT_MIN |
| StencilAnalysis.Position | translator/stencil_analysis.cc:46-61 | the place of the first kernel parameter that is the variable, counted from 1, or 0 |
| StencilAnalysis.LegitimateIsRead | translator/stencil_analysis.cc:63-154 | a constant, or one loop index with constants added, is accepted, and the index has the value of the expression |
| StencilAnalysis.FailureKeeps | translator/stencil_analysis.cc:94-95 | a failing analysis leaves the index as it was, so that the operand counts as 0 |
| StencilAnalysis.VariableIsDropped | translator/stencil_analysis.cc:94-95 | an index plus a variable that is no loop index is accepted with a wrong value |
| StencilAnalysis.RightIffLegitimate | translator/stencil_analysis.cc:63-154 | for an accepted expression without repeated names the index is right for all values exactly if the expression is legitimate |
| StencilAnalysis.AcceptedIffLegitimate | translator/stencil_analysis.cc:63-154 | unless the failure of an operand goes unnoticed, exactly the constants and the single loop indices with constants added are accepted |
| StencilAnalysis.SumIsSwallowed | translator/stencil_analysis.cc:94-99 | a sum of two loop indices is rejected, but added to a third it is dropped |
| StencilRange.StencilIndexSelf | translator/stencil_range.cc:25-32 | accepts exactly the regular lists of zero offsets |
| StencilRange.StencilIndexRegularOrder | translator/stencil_range.cc:34-46 | accepts exactly the lists of loop indices in order |
| StencilRange.StencilIndexListInitSelf | translator/stencil_range.cc:19-23 | the list is regular and zero but one entry short |
| StencilRange.NonZeroIsDiagonal | translator/stencil_range.cc:90-102 | the count of non-zero offsets exceeds one exactly if two dimensions are left |
| StencilRange.InsertExtreme | translator/stencil_range.cc:54-88 | one bucket keeps the attained extreme of every loop index seen, and nothing else |
| StencilRange.ExtremesSuffice | translator/stencil_range.cc:136-148 | merging the extremes of another range is as good as inserting all its reads |
| StencilRange.StencilRange.Insert | translator/stencil_range.cc:90-102 | the range stands for the earlier reads and the new one: attained minima and maxima per position and loop index, and the diagonal flag |
| StencilRange.StencilRange.Merge | translator/stencil_range.cc:136-148 | the range stands for the reads of both |
| StencilRange.StencilRange.IsNeighborAccess | translator/stencil_range.cc:104-114 | holds exactly if there is a read and all reads are in regular order, though only minima are looked at |
| StencilRange.StencilRange.GetNeighborAccess | translator/stencil_range.cc:150-158 | the offsets are the attained minima and maxima of all reads |
| StencilRange.StencilRange.IsZero | translator/stencil_range.cc:165-177 | holds exactly if every read is the current point |
| StencilRange.StencilRange.IsUniqueDim | translator/stencil_range.cc:201-209 | holds exactly if in each dimension all reads use one loop index |
| StencilRange.StencilRange.GetMaxWidth | translator/stencil_range.cc:211-224 | the largest distance of any read, attained; -1 without reads |
| LoadNeighbor.NeighborWidths | runtime/grid_mpi.cc:1026-1030 | the widths computed from the offsets |
| LoadNeighbor.WidthsAreLeast | runtime/grid_mpi.cc:1026-1030 | the widths are the smallest that cover all offsets between minimum and maximum |
| LoadNeighbor.Overlap | runtime/grid_mpi.cc:994-1009 | the loop tests every dimension |
| LoadNeighbor.AlwaysOverlaps | runtime/grid_mpi.cc:996-997 | the test cannot fail, so the other branch is dead |
| LoadNeighbor.ExchangeFits | runtime/grid_mpi.cc:1026-1032 | in the exchange asked for, every process sends own cells only, in whatever state it is, exactly if no offset across an end where there is a neighbour exceeds the extent of the process |
| LoadNeighbor.RangeCovers | runtime/grid_mpi.cc:1026-1030 | every read that went into a range is within the derived widths, and within one dimension unless the range is diagonal |
| LoadNeighbor.StencilReads | translator/mpi_translator.cc:264-290 | reads that went into the ranges are reads that the loaded halos serve |
| Refinement.ShortRangeOk | runtime/grid_mpi.cc:994-1009 | widths within the shortest partition make an exchange that a run may use, periodic ones included if no partition is empty |
| Refinement.LoadRefines | translator/mpi_translator.cc:229-318 | the load statements leave every process with its part of every grid |
| Refinement.ZeroIsNotLoaded | translator/mpi_translator.cc:274-279 | for a parameter that is read at the own point only nothing is loaded |
| Refinement.ReadRefines | translator/mpi_translator.cc:229-318 | after the load statements, with flags in order and no active remote grid, each read a process makes in the kernel is the read of the global grid |
| Refinement.ValueRefines | translator/mpi_translator.cc:376-417 | the kernel computes the same value on the process as on the global grids |
| Refinement.StepRefines | translator/mpi_translator.cc:376-417 | load, kernel and swap of one stencil are one sweep |
| Refinement.RoundRefines | translator/mpi_translator.cc:419-451 | the body of the loop is one sweep of every stencil in order |
| Refinement.RoundsKeepRemotes | translator/mpi_translator.cc:419-451 | loads and kernels with neighbour access neither activate nor deactivate a remote grid |
| Refinement.RunsRefine | translator/mpi_translator.cc:419-451 | n rounds of any list of stencils on any process grid are n sweeps over the global grids, as long as the flags are in order where a process needs them and no grid that is read has an active remote grid |
| RunSchedule.RunLeads | translator/mpi_translator.cc:419-451 | in step, the phases of the whole loop lead where the rounds lead, and all their messages match |
| RunSchedule.RunResult | translator/mpi_translator.cc:419-451 | under every schedule of the whole loop, without a barrier between exchanges, the processes end with what they have when all move in step, and no message is left |
| RunSchedule.RunGoesOn | translator/mpi_translator.cc:419-451 | no schedule of the loop blocks or goes on for ever |
| RunSchedule.ScheduledRunRefines | translator/mpi_translator.cc:419-451 | under every schedule of n rounds the processes end with their parts of what n sweeps over the global grids produce |
| Flags.WidthsFlagFree | runtime/grid_mpi.cc:551-646 | an exchange reads right with either flag if it is periodic, or its widths are zero or positive together, or it has forward widths only |
| Flags.SteadyRun | translator/mpi_translator.cc:419-451 | the flags are in order in every run if for each grid and process all exchanges do without the flag, or all are of the kind that the flag says at the start |
| Overlap.Shrink | runtime/mpi_cuda_runtime.cc:502-509 | moves both ends of every dimension inwards by the width |
| Overlap.GetBoundary | include/physis/physis_common.h:107-133 | the slab or chunk of a domain, and the domain itself if it is empty in the dimension |
| Overlap.InteriorPreserves | translator/mpi_cuda_translator.cc:712-756 | at every point of the shrunk domain the rewritten kernel computes what the kernel computes |
| Overlap.InteriorNeedsNoHalo | translator/mpi_cuda_translator.cc:515-533 | the interior kernel depends on own cells only, so it may run during the exchange |
| Overlap.BoundaryPreserves | translator/mpi_cuda_translator.cc:780-844 | at every point of a slab its rewritten kernel computes what the kernel computes, if the box goes on for two widths |
| Overlap.RoomyIsExact | translator/mpi_cuda_translator.cc:820-827 | two widths are exactly what the redirected reads of a slab need to stay in the box |
| Overlap.InteriorGets | translator/mpi_cuda_translator.cc:712-756 | the interior kernel has the gets of the kernel, all without halo |
| Overlap.RedirectedIff | translator/mpi_cuda_translator.cc:815-828 | the test redirects exactly the attributed gets that leave no box of two widths from any point within one width of that end |
| Overlap.BoundaryGets | translator/mpi_cuda_translator.cc:780-844 | the boundary kernel has the gets of the kernel, and exactly those without halo |
| Overlap.SlabsCover | translator/mpi_cuda_translator.cc:547-628 | shrunk domain and slabs make up exactly the domain, and no slab meets the shrunk domain |
| Overlap.ChunksTile | include/physis/physis_common.h:123-131 | every cell of the divided dimension is in exactly one chunk |
| Overlap.SlabChunksTile | translator/mpi_cuda_translator.cc:553-588 | the chunks of a slab of one of the first two dimensions tile the slab |
| Overlap.OverlapSame | translator/mpi_cuda_translator.cc:515-636 | with overlap every point of the domain gets, from each kernel that computes it, the value of the kernel on the loaded grids |
| Overlap.MaxWidthSuffices | translator/mpi_translator.cc:289 | a width that bounds the reads of the ranges covers every get of a kernel whose reads are in them |
| Overlap.OverlapWidth | translator/mpi_translator.cc:236-290 | the maximum of the maximal widths of the parameters that are loaded is attained by a read, and covers every get of a kernel with regular reads |
| Overlap.KernelIsStencil | translator/mpi_translator.cc:376-417 | running a kernel on a process is running the stencil with its reads and its value |
| Overlap.OverlapRefines | translator/mpi_cuda_translator.cc:515-636 | each kernel that computes a cell under overlap gives the value that one step without overlap writes there |
| DefAnalysis.RegisterDef | translator/def_analysis.cc:77-95 | adds the definition unless present, and reports whether it did |
| DefAnalysis.MergeDefs | translator/def_analysis.cc:97-111 | adds exactly the definitions of the source variable, and reports whether any was new |
| DefAnalysis.HandleVarDecl | translator/def_analysis.cc:113-141 | records the initializing expression, NULL without one, or what the initializing variable has, and nothing else, and reports whether that changed anything |
| DefAnalysis.ClosedRecords | translator/def_analysis.cc:144-189 | a map to which no pass adds anything holds every definition that a chain of copies carries to a variable |
| DefAnalysis.FindDefinitions | translator/def_analysis.cc:144-189 | terminates with the least map to which no declaration or assignment adds anything: every initializing expression is recorded, every recorded one comes from a declaration, and for exactly the variables that a chain of copies leads to |
| DefAnalysis.OrderIrrelevant | translator/def_analysis.cc:144-189 | the maps returned for two orders of the same declarations and assignments record the same definitions, each once |

## Left out

- HaloExchange.ExchangeReadsGlobal: needs neighbours that hold what may be read in them, which the code does not check; `HaloWidths.ExchangeRightIff` says that this is exact. The exchange is modelled on values instead of in place; posting receives and the life of message buffers are not modelled.
- HaloFlag.HaloReads: needs the flag in order, because the code sets it only when it sends, and a remote grid that is not active, because the reader looks there first; `HaloMisread.ReaderRightIff` says that this is exact.
- HaloWidths.ExchangeRightIff: what a process sends of cells behind its own box is its old halo or 0 here, and memory outside of the buffer in the code; the only-if half says that this cannot be relied upon.
- GridSpace.GridSpaceMPI.CollectPerProcSubgridInfo: the request must not start below 0, which its caller asserts (runtime/grid_mpi.cc:881).
- LoadResult.LoadDelivers: every round starts with empty channels, which the code does not enforce (`LoadRounds.RoundsMix`), and fetches anew; `reuse` of an earlier remote grid is not modelled.
- Refinement.RunsRefine: for kernels with neighbour access whose grids are not read and written by one stencil, on distinct grids, within the grid if not periodic, with senders that hold what they send, with flags in order and without an active remote grid on a grid that is read (`HaloWidths.SendsOwnIff`, `HaloMisread.ReaderRightIff` and `HaloMatch.MessagesMatchIff` show that the code needs this; `Flags.SteadyRun` is a sufficient condition on the stencils for the flags); kernels that load subgrids (called experimental in translator/mpi_translator.cc:292) are covered as far as `LoadResult` goes. The swap does nothing, as double buffering is switched off.
- RunSchedule.ScheduledRunRefines: a send copies its message at once. The code drops the requests of its non-blocking sends (runtime/grid_mpi.cc:619-643, 802-808) and may write to a send buffer, or to cells that are sent in place, before the message has left; that is not modelled, and neither are the calls of the master between two runs.
- Reduction.ReduceIsFold: exact arithmetic; `MPI_Reduce` joins the results in rank order.
- StencilAnalysis.RightIffLegitimate: names must not repeat; where they do, dropped operands can cancel out. Expressions of any kind that the analysis does not look into count as names.
- Overlap.OverlapSame: the rewriting is a function on a small kernel language instead of a loop over the calls of a copied syntax tree; gets with other than regular indices are never rewritten in boundary kernels and exclude overlap altogether (translator/mpi_translator.cc:297). The get without halo at runtime/mpi_runtime.cc:119-127 goes through the emit buffer, which is the same one without double buffering.
- `ProcessStencilMap` and `BuildRunBody` appear through what the statements they build do; building statements is not modelled.
- SubgridRead.SubgridBox: a box that ends before it starts is asserted away (runtime/grid_mpi.cc:881-882), and `reuse` is not modelled.
- The halo loop of `GridMPI::GetAddress` (runtime/grid_mpi.cc:845-863) updates the wrong index for diagonal points; the reader of kernels is the one in runtime/mpi_runtime.cc.
- `CopyoutHalo2D0` (runtime/grid_mpi.cc:159-189): the two-dimensional packer, whose grids the reader misreads.
- Non-zero grid offsets, grids smaller than the space in halo exchange, and integer widths.
- Allocation and capacity of buffers other than send buffers, unwaited sends, checkpoints, logging, timing, command lines, and the Lua loader.
- CUDA buffers, streams, staging and device code, and the ROSE syntax trees behind the analyses.
