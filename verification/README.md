# Verified models of the ArrayFire example programs and of bin2cpp

ArrayFire ships a set of example programs and a build tool, bin2cpp, that turns kernel source files into C++
headers. This project models the algorithms in them over exact numbers, imperatively where the program is
imperative, and proves what each of them is meant to guarantee.

| program | modules |
|---|---|
| conjugate gradient benchmark | `Vectors`, `ConjugateGradient`, `CgStep`, `CgInvariants`, `Bessel`, `Krylov`, `Galerkin`, `CgConvergence`, `CgSetup` |
| bin2cpp | `CommentAutomaton`, `CommentMarks`, `CommentIdempotence`, `CommentFreeText`, `CommentLexer`, `CStrings`, `CommentRemover`, `Numerals`, `ByteList`, `OptionWords`, `Bin2Cpp`, `HeaderGenerator`, `HeaderProperties`, `CommandLine` |
| lattice Boltzmann flow | `LatticeTables`, `LatticeArrays`, `LatticeBoltzmann`, `LatticeFrame`, `LatticeConservation`, `LatticeUpdate`, `LatticeSimulation` |
| gravity simulation | `GravityArrays`, `GravityConservation`, `GravityLaw`, `GravitySimulation` |
| black hole ray tracer | `KerrMetric`, `Geodesics`, `GeodesicLaw`, `Spaces`, `RayStepping`, `StepOrder`, `DiskColors`, `RayReference`, `Compaction`, `RayRun`, `RayTracer`, `WormholeSteps`, `WormholeRays`, `WormholeRace`, `WormholeRuns`, `CheckIntervals` |
| distance kernels | `DistanceKernels` |
| genetic search | `Bits`, `Fitness`, `GeneticSearch` |
| Otsu threshold | `Otsu`, `OtsuOptimality`, `OtsuLimit` |
| shared | `Reals`, `Sums`, `NdArrays`, `Reductions` |

The library operations the programs use (`tile`, `T`, `moddims`, `join`, `flip`, `shift`, `replace`, `sum`,
`matmul`, broadcasting of extents of one) are ordinary functions on arrays given by their shape and their
elements; the column-major order matters only to `moddims` and linear indexing.

## Where the programs fall short of what they promise

- **Conjugate gradient.** The loop always runs `maxIter` times. Once the residual is zero the next iteration
  divides 0 by 0, so the printed difference is NaN, not 0, as soon as `maxIter` exceeds the number of steps the
  system needs. That number is the number of vectors b, A b, A^2 b, ... up to the first that depends on the ones
  before it, hence at most the dimension. `CheckSolution` gives the exact condition; a random matrix of which no
  entry is kept is an input for the program's own size and ten iterations (`ZeroSystemBreaksDown`, `RunOnZeros`).
- **Distance kernels.** `sum` without a dimension adds up along the first dimension longer than one
  (include/af/algorithm.h:18-28, src/api/cpp/common.hpp:27-38). For columns of length one the two parallel loops
  and the first tiled form therefore add up the distances of different columns and, since a single value is
  assigned to every row (src/api/c/assign.cpp:64-86, src/api/cpp/array.cpp:526-556), fill the matrix with totals;
  the second tiled form fails in `moddims` (src/api/c/moddims.cpp:55-58). The exact conditions are proved, and
  `OneFeatureGoesWrong` is an input.
- **Otsu threshold.** The class sizes are arrays of 32-bit unsigned integers (src/backend/cpu/histogram.hpp:15,
  src/api/c/scan.cpp:138) and so is their product (src/api/c/implicit.cpp:20-45). From 2^17 pixels on the product
  wraps around for some histogram and the threshold is not the best one any more; below, it always is.
- **Ray tracer.** Over all scenes in the three spaces and all light rays, removing finished rays keeps the picture
  exactly when every step is checked, as `main` asks for (`RemovalKeepsPictureIff`). For any longer check
  interval there are two light rays at the program's wormhole, in front of a white background: the radial one is not
  accelerated, ends with its first step and loses its row; the circling one has that step rejected, by as much as
  wanted, and needs more steps than the interval has (`RadialEnds`, `CirclingEnds`). The pixel of the first one stays
  black, and would be white if its row were kept (`RenderTwoRays`). A segment is coloured by the disk not only when it
  crosses the disk, but also when the disk lies up to one length behind its begin (`SeenIsCrossedIff`), so that a ray
  that goes on straight after crossing the disk gets its colour twice (`ColoredTwice`).
- **bin2cpp.** A file is read to its end exactly when no line is longer than 254 characters; the first longer line
  silently ends it (`AllReadIff`, `UnreadIsIgnored`). A file is copied byte for byte exactly when every line is ended by
  a newline, is neither empty nor longer than 254 characters, and has no NUL, no blanks at its ends and nothing that
  the scanner takes for a comment, also with `--binary` (`StripUnchangedIff`, `ListedUnchangedIff`). It sees the
  strings and comments that a lexer for C sees exactly when no escaped quote stands in a string literal and no quote
  and no comment marker in a character literal (`SameTrackIff` for a line, `SameTracksIff` for a file); then the
  output is the file without its comments (`StripsComments`). `EscapedQuoteEndsString` is a literal that loses its
  end.
- **Genetic search.** A mutation keeps all coordinates on the grid exactly when the side is a power of two.

## Model

| member | source | states |
|---|---|---|
| CgSetup.KeptRange | examples/benchmarks/cg.cpp:28-29 | every kept entry of the sparsified matrix lies between 0 and 0.994 |
| CgSetup.KeptThousandths | examples/benchmarks/cg.cpp:28-29 | of every random entry the whole thousandths are kept exactly when their number is a multiple of seven |
| CgSetup.SetupThousandths | examples/benchmarks/cg.cpp:27-31 | an entry of the system matrix is what is kept of the random entries (i, j) and (j, i), and n more on the diagonal |
| CgSetup.FormLowerBound | examples/benchmarks/cg.cpp:25-31 | for every random matrix with entries in [0, 1] and every vector v, v'Av is at least 0.006 n times the squared length of v |
| CgSetup.SetupIsSpd | examples/benchmarks/cg.cpp:25-31 | for every n and every such random matrix, the system matrix is symmetric and positive definite |
| CgSetup.SetupAndCheck | examples/benchmarks/cg.cpp:112-120 | the check of a generated system prints the squared distance of x0 to the one vector in the span of as many powers b, A b, ... as iterations whose residual is orthogonal to them, 0 exactly when these are linearly independent and one more is not, and NaN exactly when they are dependent |
| Vectors.SelfAdjoint | examples/benchmarks/cg.cpp:60-62 | for a symmetric matrix, u'Av = v'Au |
| ConjugateGradient.Solve | examples/benchmarks/cg.cpp:54-70 | the loop that overwrites r, x and p computes the states of the recurrence, or reports that a divisor was zero |
| CgInvariants.RunKeepsInvariant | examples/benchmarks/cg.cpp:77-87 | for every symmetric matrix, in every state reached the residual is b - Ax and is orthogonal to all earlier residuals and directions, and the direction is conjugate to all earlier ones |
| CgInvariants.WholeRun | examples/benchmarks/cg.cpp:54-70 | over a whole run, any two residuals are orthogonal and any two search directions conjugate |
| CgInvariants.StepsWhileResidualNonzero | examples/benchmarks/cg.cpp:97-99 | for a positive definite matrix, a next iteration with finite numbers exists exactly while the residual is not zero |
| Bessel.BesselInequality | examples/benchmarks/cg.cpp:90-106 | the energies of a vector along pairwise orthogonal vectors add up to at most its squared length |
| Bessel.DimensionBound | examples/benchmarks/cg.cpp:90-106 | at most n nonzero vectors of length n are pairwise orthogonal |
| CgConvergence.AtMostDimensionSteps | examples/benchmarks/cg.cpp:95-105 | no run has more than n iterations with finite numbers |
| CgConvergence.SolvedIffResidualZero | examples/benchmarks/cg.cpp:37-40 | an iterate is the vector the right-hand side was made from exactly when its residual is zero |
| CgConvergence.ReachesSolution | examples/benchmarks/cg.cpp:90-106 | started on b = A x0, the loop reaches x0 after at most n iterations, not before, and stays finite exactly up to there |
| Krylov.ResidualVsPower | examples/benchmarks/cg.cpp:90-106 | every residual is orthogonal to all earlier powers b, A b, ... |
| Krylov.LiveIffIndependent | examples/benchmarks/cg.cpp:95-105 | for a positive definite matrix, k iterations give finite numbers exactly when b, A b, ..., A^(k-1) b are linearly independent |
| CgConvergence.StepsAreIndependentPowers | examples/benchmarks/cg.cpp:95-105 | the number of steps a system needs is the number of its independent powers |
| CgConvergence.CheckSolution | examples/benchmarks/cg.cpp:90-110 | prints a number exactly when as many powers b, A b, ... as iterations are linearly independent, and otherwise NaN, always above n; the number is the squared distance of x0 to the vector in the span of these powers whose residual is orthogonal to all of them, and 0 exactly when one power more is dependent |
| Galerkin.IterateIsGalerkin | examples/benchmarks/cg.cpp:90-106 | the iterate after k steps lies in the span of the first k powers, with a residual orthogonal to them |
| Galerkin.GalerkinUnique | examples/benchmarks/cg.cpp:90-106 | for a positive definite matrix there is only one such vector |
| CgConvergence.ConvergedSystemBreaksDown | examples/benchmarks/cg.cpp:98-99 | a one-dimensional system whose first iteration already divides 0 by 0 |
| CgSetup.ZeroSystemBreaksDown | examples/benchmarks/cg.cpp:14-40 | for every x0 and in every dimension, a random matrix of zeros gives a positive definite system whose powers b, A b, ... are dependent long before the tenth |
| CgSetup.RunOnZeros | examples/benchmarks/cg.cpp:14-40 | so the program prints NaN for it with its own dimension and number of iterations |
| CgConvergence.EnergyDecreases | examples/benchmarks/cg.cpp:77-87 | every iteration lowers the energy of the error by exactly (r'r)^2 / p'Ap, which is positive |
| CommentAutomaton.GetLine | CMakeModules/bin2cpp.cpp:148 | a line read fits the buffer, holds no newline, and is the input up to its first newline; none is read exactly at the end of the input and at a longer line |
| CStrings.Find | CMakeModules/bin2cpp.cpp:164 | the first place where the marker occurs in the C string, if there is one |
| CStrings.NextToken | CMakeModules/bin2cpp.cpp:222 | the next run of characters that are not delimiters, which was cut off in place; only delimiters are passed over |
| CommentRemover.FirstSubtoken | CMakeModules/bin2cpp.cpp:186-201 | of the three markers, the one the automaton meets first in the token, if any |
| CommentRemover.ScanToken | CMakeModules/bin2cpp.cpp:161-221 | on one token the scanner ends in the level of the automaton, with segments that mark the same characters |
| CommentRemover.ScanLine | CMakeModules/bin2cpp.cpp:155-223 | on a whole line too, across its delimiters |
| CommentRemover.MarkLine | CMakeModules/bin2cpp.cpp:149-229 | the recorded segments are in order, do not overlap, and cover exactly the characters a one-pass automaton marks, also when comments or strings span lines |
| CommentRemover.DeleteRange | CMakeModules/bin2cpp.cpp:232-237 | moving the tail of the string in place removes exactly the characters of one segment |
| CommentRemover.DeleteSegments | CMakeModules/bin2cpp.cpp:230-238 | deleting the segments from the last to the first leaves exactly the unmarked characters, in order |
| CommentRemover.TrimEnd | CMakeModules/bin2cpp.cpp:239-243 | exactly the blanks at the end are cut off |
| CommentRemover.SkipBlanks | CMakeModules/bin2cpp.cpp:244-248 | what remains begins at the first character that is not a blank |
| CommentRemover.ProcessLine | CMakeModules/bin2cpp.cpp:148-250 | one line through the buffer gives the stripped line and the level for the next |
| CommentRemover.RemoveComments | CMakeModules/bin2cpp.cpp:137-253 | for every input the token-by-token scan over the buffer gives what the character automaton gives |
| CommentIdempotence.SlashKeepsNeighbour | CMakeModules/bin2cpp.cpp:186-201 | a kept slash does not become the start of a comment marker when comments after it are removed |
| CommentIdempotence.KeptIsClean | CMakeModules/bin2cpp.cpp:162-238 | what is kept of a line holds no comment, and leaves the same string state as the line |
| CommentIdempotence.StripLineTwice | CMakeModules/bin2cpp.cpp:148-250 | a stripped and trimmed line strips to itself |
| CommentIdempotence.StripIdempotent | CMakeModules/bin2cpp.cpp:137-253 | removing comments from text without comments changes nothing, for every input |
| CommentFreeText.AllReadIff | CMakeModules/bin2cpp.cpp:148 | the whole input is read exactly when no piece of it without a newline is longer than 254 characters |
| CommentFreeText.UnreadIsIgnored | CMakeModules/bin2cpp.cpp:148-251 | what follows the first longer line has no effect on the output |
| CommentFreeText.StripUnchangedIff | CMakeModules/bin2cpp.cpp:137-253 | the output is the input exactly when every line is ended, neither empty nor too long, and has no NUL, no outer blanks and no marked character |
| CommentLexer.SameTrackIff | CMakeModules/bin2cpp.cpp:162-221 | on any line, the scanner is in the state of a C lexer at every character exactly when the line has no escaped quote in a string literal and no quote or comment marker in a character literal |
| CommentLexer.SameTracksIff | CMakeModules/bin2cpp.cpp:145-251 | likewise for whole files, with the state carried from line to line |
| CommentLexer.StripsComments | CMakeModules/bin2cpp.cpp:137-253 | on such files the output is that of deleting the comments the lexer sees |
| CommentLexer.EscapedQuoteEndsString | CMakeModules/bin2cpp.cpp:177-200 | a file with one string literal and no comment, which the lexer leaves unchanged and the program cuts short |
| Bin2Cpp.Options.Parse | CMakeModules/bin2cpp.cpp:91-135 | the values of --name, --type, --file, --output and --namespace are the blank-joined arguments behind each of these words wherever they stand; --formatted, --binary and --nullterm are on exactly when given, and --help exits |
| OptionWords.SplitJoinedIff | CMakeModules/bin2cpp.cpp:121-125 | arguments joined by blanks split into the same list exactly when none is empty or holds white space |
| HeaderProperties.NamespacesComeBack | CMakeModules/bin2cpp.cpp:282-292 | the namespaces opened are the arguments given, exactly when none is empty or holds white space |
| Numerals.ReadWrite | CMakeModules/bin2cpp.cpp:308-331 | a number printed in any base up to sixteen reads back as the same number |
| ByteList.ReadPrintedList | CMakeModules/bin2cpp.cpp:304-320 | a compiler reads from the printed list exactly the bytes printed, and a final zero when asked for, whatever the line breaks and tabs |
| HeaderGenerator.Generator.OpenNamespaces | CMakeModules/bin2cpp.cpp:280-292 | one opening line per namespace, each one level deeper |
| HeaderGenerator.Generator.PrintBytes | CMakeModules/bin2cpp.cpp:304-320 | the list of all the bytes, and their count with the terminator |
| HeaderGenerator.Generator.CloseNamespaces | CMakeModules/bin2cpp.cpp:346-349 | one closing line per namespace; the level is back at 0 |
| HeaderGenerator.Generator.Generate | CMakeModules/bin2cpp.cpp:268-349 | the header is that of the stripped input with the defaults for missing options, and the level ends at 0 |
| HeaderProperties.HeaderBalanced | CMakeModules/bin2cpp.cpp:276-349 | whatever the file, the opening and closing braces of a header differ exactly by those in the names it is given: nine times the name, twice the type, once the hash and every namespace |
| HeaderProperties.HeaderContents | CMakeModules/bin2cpp.cpp:297-331 | in every header, between the declaration and the next closing brace, a compiler reads exactly the given bytes with the terminator asked for; the lines after it define the pointer of the given name and type and give their number |
| CommandLine.PrintHeader | CMakeModules/bin2cpp.cpp:255-353 | a command line prints the header of what follows --name, --type and --namespace and of the stripped file, with --nullterm and --formatted as given, and nothing exactly for no arguments or --help |
| CommandLine.RequestedContents | CMakeModules/bin2cpp.cpp:255-353 | whatever the command line, a compiler reads from the header the bytes of the stripped file, the terminator exactly if asked for, the pointer of the name and type given, and the number of bytes; the namespaces are the arguments exactly when these are plain words |
| CommandLine.ListedUnchangedIff | CMakeModules/bin2cpp.cpp:302-314 | the list is the file byte for byte exactly when nothing is stripped, with or without asking for binary input |
| NdArrays.ElementAtLinear | examples/getting_started/vectorize.cpp:128 | in column-major order, the element at the position of an index is the element at that index |
| NdArrays.ModDimsAt | examples/getting_started/vectorize.cpp:139 | a change of shape keeps every element at its column-major position |
| LatticeTables.Opposites | examples/pde/boltzmann_cfd.cpp:50-58 | the opposite of a direction has opposite offsets and the same weight |
| LatticeTables.EquilibriumMass | examples/pde/boltzmann_cfd.cpp:285-287 | the nine equilibrium populations of any density and velocity add up to the density |
| LatticeTables.EquilibriumMomentum | examples/pde/boltzmann_cfd.cpp:285-287 | their momentum is density times velocity in both directions |
| LatticeTables.EquilibriumFlux | examples/pde/boltzmann_cfd.cpp:285-287 | all nine moments of the equilibrium up to second order in each dimension, with momentum flux rho/3 + rho u u, rho u v, rho/3 + rho v v |
| LatticeTables.MomentsDetermine | examples/pde/boltzmann_cfd.cpp:285-287 | these nine moments determine the nine populations |
| LatticeBoltzmann.EquilibriumMoments | examples/pde/boltzmann_cfd.cpp:239-245 | populations set to equilibrium have the density and momentum they were made from, in every cell |
| LatticeBoltzmann.RelaxationTimePositive | examples/pde/boltzmann_cfd.cpp:289-294 | the relaxation time t of a cell is at least tau, so it never divides by zero, and solves t (t - tau) = 0.1152 sigma |
| LatticeBoltzmann.Stream | examples/pde/boltzmann_cfd.cpp:298-304 | the nine shifts in turn move every population one step along its own direction, around the edges |
| LatticeConservation.RelaxationKeepsMoments | examples/pde/boltzmann_cfd.cpp:285-294 | relaxation keeps the mass and both momenta of every cell whose density and velocity are its moments |
| LatticeConservation.StreamingKeepsPage | examples/pde/boltzmann_cfd.cpp:298-304 | streaming keeps the total of every population over the grid |
| LatticeConservation.GridMomentByPages | examples/pde/boltzmann_cfd.cpp:298-304 | a moment summed cell by cell is the same moment summed population by population |
| LatticeConservation.CollisionAndStreamingConserve | examples/pde/boltzmann_cfd.cpp:285-304 | relaxation and streaming keep the mass and both momenta of the grid, for every grid |
| LatticeArrays.RowsHelperAt | examples/pde/boltzmann_cfd.cpp:313-325 | the tiled, transposed and reshaped wall velocities hold, for direction i, row i / 3 of the three |
| LatticeArrays.ColsHelperAt | examples/pde/boltzmann_cfd.cpp:327-330 | the tiled ones hold, for direction i, column i mod 3 of the three |
| LatticeBoltzmann.RowWallAt | examples/pde/boltzmann_cfd.cpp:332-341 | for every direction that is used, the reflected population at a wall row takes the velocity of the outer row on its own side |
| LatticeBoltzmann.ColWallAt | examples/pde/boltzmann_cfd.cpp:332-345 | likewise for the wall columns |
| LatticeBoltzmann.Bounce | examples/pde/boltzmann_cfd.cpp:347-362 | for all grids of 3 by 3 and more, the writes in program order leave next to each wall the opposite population less six times density, weight and wall velocity along the direction; the second-dimension walls win in the corners, and all else is unchanged |
| LatticeFrame.FrameUpdates | examples/pde/boltzmann_cfd.cpp:285-362 | after a frame a fixed cell away from the walls has its old populations, and a free one those of the cells one step back, closer to equilibrium by one part in the relaxation time there; next to a wall, a population toward it is the one that arrives from there with its distance from the equilibrium at the wall |
| LatticeUpdate.MomentArrayAt | examples/pde/boltzmann_cfd.cpp:380-386 | the one-pass product and sum gives the mass and the two momenta of every cell |
| LatticeUpdate.StrainAt | examples/pde/boltzmann_cfd.cpp:393-396 | the one-pass strain is the root of xx^2 + 2 xy^2 + yy^2 in every cell and not negative |
| LatticeSimulation.Simulation.constructor | examples/pde/boltzmann_cfd.cpp:201-246 | the first frame starts with equilibrium populations whose moments are the density and velocity stored |
| LatticeSimulation.Simulation.CollideStream | examples/pde/boltzmann_cfd.cpp:253-363 | one frame relaxes with positive relaxation times from the Reynolds number, streams, restores the fixed cells and reflects at the walls, as said for every population of every cell; up to the streaming the grid keeps its mass and both momenta |
| LatticeSimulation.Simulation.Update | examples/pde/boltzmann_cfd.cpp:370-397 | density and velocity are again the moments of the populations, and the strain is not negative, if no cell has lost its mass |
| LatticeSimulation.Simulation.Simulate | examples/pde/boltzmann_cfd.cpp:253-397 | for any number of frames, every frame starts with density and momentum that are the moments of the populations |
| GravityConservation.MomentumConserved | examples/graphics/gravity_sim.cpp:132-150 | the velocity update keeps the total momentum along every coordinate, for all masses and time steps |
| GravityConservation.AngularConserved | examples/graphics/gravity_sim.cpp:132-150 | the velocity update keeps the total angular momentum in every plane |
| GravityConservation.DriftKeepsAngular | examples/graphics/gravity_sim.cpp:113-116 | moving the particles along their velocities keeps the total angular momentum |
| GravitySimulation.Particles.PairDistances | examples/graphics/gravity_sim.cpp:118-130 | the matrix form holds the cube of the distance of every pair of particles, or of 3 if that is more |
| GravitySimulation.ForceArrayAt | examples/graphics/gravity_sim.cpp:134-144 | the matrix product gives every particle the sum of the pulls of all the others |
| GravitySimulation.Particles.Simulate | examples/graphics/gravity_sim.cpp:111-157 | one step moves, computes all pulls at the new positions and accelerates; the pulls of all particles add up, each 20000 times the mass over the squared distance, and for two bodies this is the law of gravity; momentum and angular momentum are exactly kept |
| GravityLaw.StepSuperposes | examples/graphics/gravity_sim.cpp:128-150 | every velocity changes by the sum of one acceleration for each particle, which times the cubed distance is 20000 times the mass times the difference of positions |
| GravityLaw.TwoSuperposed | examples/graphics/gravity_sim.cpp:128-150 | for two particles alone, the change times the cubed distance is 20000 times the time step, the mass of the other and the difference of positions |
| GravitySimulation.Particles.SimulateSteps | examples/graphics/gravity_sim.cpp:243-244 | so they are over any number of steps of any lengths between collisions |
| GravitySimulation.CollisionSettles | examples/graphics/gravity_sim.cpp:161-170 | a collision puts a particle at the nearest place inside, reverses its velocity only if it was outside, and a second one changes nothing |
| GravitySimulation.Particles.Collisions | examples/graphics/gravity_sim.cpp:159-179 | every axis is handled with its own extent, the third only in three dimensions |
| KerrMetric.InvMetricIsInverse | examples/pde/bhrt.cpp:430-449 | the block inverse is a two-sided inverse wherever its three divisors are not zero |
| KerrMetric.KerrDeterminant | examples/pde/bhrt.cpp:473-493 | the determinant of the time-angle block is delta sin^2 |
| Spaces.PrincipalNull | examples/pde/bhrt.cpp:473-493 | the two principal directions of the rotating black hole are null |
| Spaces.MasslessIsFlat | examples/pde/bhrt.cpp:473-493 | without mass the metric is that of flat space in the oblate coordinates of the program |
| Spaces.SpinlessIsStatic | examples/pde/bhrt.cpp:473-509 | without spin it is the metric of the static black hole |
| Spaces.TracedIsRegular | examples/pde/bhrt.cpp:1021-1027 | a row that is still traced is outside the horizon, and off the axis its metric has the inverse the program computes |
| Spaces.RemovedPixel | examples/pde/bhrt.cpp:1021-1054 | a removed ray shows no background if it was at or under 1.01 times the horizon, and otherwise has used up its time and shows it |
| Geodesics.FivePointExact | examples/pde/bhrt.cpp:565-580 | the difference quotient is the derivative for every polynomial up to the fourth order |
| KerrMetric.SelectedOutsideHorizon | examples/pde/bhrt.cpp:1023-1027 | for a spin below the mass, a ray that is still followed has a positive radius and positive delta |
| KerrMetric.KerrInvertible | examples/pde/bhrt.cpp:430-493 | at every position still followed the Kerr metric has an inverse of its layout exactly off the axis, and there the block inverse is it |
| GeodesicLaw.AccelerationLowered | examples/pde/bhrt.cpp:588-617 | in every space, wherever the block inverse is one, the acceleration lowered by the metric is the contraction of the Christoffel symbols of the first kind, of the difference quotients, with the velocity |
| Geodesics.WormholeAcceleration | examples/pde/bhrt.cpp:565-617 | in the wormhole, a ray that does not turn around the axis gets exactly its geodesic acceleration from the difference quotients: r vo^2 along the radius, -2 r vr vo / (r^2 + b^2) along the angle, nothing else |
| WormholeRace.UnderStep | examples/pde/bhrt.cpp:958-986 | every step of the circling ray ends it, or brings it on by at least a fixed length, or shortens its next step by a fifth, but never below that length |
| WormholeRuns.CirclingEnds | examples/pde/bhrt.cpp:950-986 | the circling ray comes to its end after more steps than any given number |
| WormholeRuns.RadialEnds | examples/pde/bhrt.cpp:950-986 | the radial ray comes to its end with its first step |
| StepOrder.ParabolaStep | examples/pde/bhrt.cpp:958-986 | where the acceleration is constant along the parabola it makes, a step follows the parabola exactly, without an error, and the next one is five times as long |
| StepOrder.TimedStep | examples/pde/bhrt.cpp:958-986 | under an acceleration that is a cubic of an evenly passing coordinate, the new velocity is exact, the new position is exact up to the quadratic part, and the error is 1/192 of the largest cubic coefficient times the fifth power of the step |
| WormholeRace.GrowthRoot | examples/pde/bhrt.cpp:983 | the step grows by 0.8 times the fourth root of tolerance over error, or by five |
| RayStepping.AdvanceOnTime | examples/pde/bhrt.cpp:974-986 | the time of a ray stays within the end time and so does its next step |
| RayStepping.RestingRay | examples/pde/bhrt.cpp:958-986 | a ray with step zero stays exactly as it is |
| RayStepping.EmptySegment | examples/pde/bhrt.cpp:805-844 | a segment of length zero meets no disk and adds no colour |
| DiskColors.DiskSeenIff | examples/pde/bhrt.cpp:805-844 | a segment is coloured by a disk exactly when it is not parallel to its plane and its line meets the disk, strictly between the edges, within one length of the segment from its begin |
| DiskColors.DiskColorAt | examples/pde/bhrt.cpp:831-844 | the colour is that of the disk times a brightness that depends on the distance of that point from the centre |
| DiskColors.BrightnessFalls | examples/pde/bhrt.cpp:835-841 | the brightness falls strictly from 1.5 at the inner edge to 0 at the outer one |
| DiskColors.SegmentAddsUp | examples/pde/bhrt.cpp:1005-1009 | the colours of all disks met are added to the colour before, channel by channel |
| DiskColors.SeenIsCrossedIff | examples/pde/bhrt.cpp:821-825 | a segment is coloured exactly when it crosses the disk itself, unless the disk lies within one length behind it |
| DiskColors.ColoredTwice | examples/pde/bhrt.cpp:821-825 | two equal segments in a row, of which the first crosses the disk, are both coloured alike |
| RayReference.PixelIsFinal | examples/pde/bhrt.cpp:989-1019 | once a ray rests at a check, no later check changes its colours |
| Compaction.Positions | examples/pde/bhrt.cpp:1050 | the marked positions, all of them, in increasing order |
| Compaction.Scatter | examples/pde/bhrt.cpp:1007-1013 | an indexed assignment changes exactly the indexed entries |
| Compaction.SelectedIff | examples/pde/bhrt.cpp:1050 | an entry is selected exactly when it stands at a marked position |
| RayRun.RemovedIsDone | examples/pde/bhrt.cpp:1021-1054 | a ray whose row was removed had no time left or was under the horizon cut at its last step |
| RayRun.StoppedRests | examples/pde/bhrt.cpp:950-951 | when the loop stops, every ray that never comes under the horizon cut rests after its last step |
| RayRun.RemovalKeepsPixel | examples/pde/bhrt.cpp:950-1063 | with every step checked, stopped runs with and without removal show the same pixel for every ray that never comes under the horizon cut |
| RayTracer.SelectRows | examples/pde/bhrt.cpp:1050-1054 | after removing rows, the index is still increasing and row j still belongs to ray index[j] |
| RayTracer.Tracer.constructor | examples/pde/bhrt.cpp:923-946 | at the start every ray has its own row and an empty image |
| RayTracer.Tracer.StepRays | examples/pde/bhrt.cpp:958-986 | every live row takes the step its ray would take alone |
| RayTracer.Tracer.UpdateArrays | examples/pde/bhrt.cpp:989-1019 | the images change at the live rays only, by their own segment and direction |
| RayTracer.Tracer.UpdateImage | examples/pde/bhrt.cpp:989-1019 | after a check the images of all live rays are those of the rays followed alone, and those of the others are unchanged |
| RayTracer.Tracer.Compact | examples/pde/bhrt.cpp:1021-1058 | the rows left are those of the run, and the images of all rays stay right, black behind rays removed under the horizon cut |
| RayTracer.Tracer.RowsOnTime | examples/pde/bhrt.cpp:950-986 | every live row has 0 <= t and t + dt <= time throughout |
| RayTracer.Tracer.Run | examples/pde/bhrt.cpp:950-1061 | for every check interval, the rows and the images of all rays are those of the run as a function of its rays, and the loop stops exactly when that run does |
| RayTracer.GenerateImage | examples/pde/bhrt.cpp:917-1066 | every pixel is that of its own ray followed alone through the steps it takes in the run, black in the background if it was removed under the horizon cut; cut off only if the run has not stopped by then |
| CheckIntervals.RenderBothWays | examples/pde/bhrt.cpp:917-1066 | tracing the same rays with and without removal, every step checked, gives the same picture at every ray that never comes under the horizon cut |
| CheckIntervals.RenderTwoRays | examples/pde/bhrt.cpp:989-1058 | for every check interval above one, two light rays at the wormhole whose runs stop after the same number of steps with and without removal, with different pictures |
| CheckIntervals.RemovalKeepsPictureIff | examples/pde/bhrt.cpp:917-1066 | over all scenes in the three spaces and all light rays at their first step, removal keeps the picture of stopped runs at the rays that never come under the horizon cut exactly when the check interval is one |
| DistanceKernels.DistNaive | examples/getting_started/vectorize.cpp:18-33 | the triple loop gives the summed absolute difference of every pair of columns |
| DistanceKernels.DistVec | examples/getting_started/vectorize.cpp:35-52 | so does the vector form, for all shapes |
| DistanceKernels.DistGfor1 | examples/getting_started/vectorize.cpp:54-71 | the loop in parallel over a gives the distances exactly for columns longer than one, for a single column of a, or for arrays of one value; otherwise totals over a |
| DistanceKernels.DistGfor2 | examples/getting_started/vectorize.cpp:73-90 | the loop in parallel over b gives them exactly for columns longer than one, for a single column of b, or for arrays of one value; otherwise totals over b |
| DistanceKernels.DistTile1 | examples/getting_started/vectorize.cpp:92-118 | the first tiled form gives them exactly when the loop in parallel over a does |
| DistanceKernels.OverAIsDistanceIff | examples/getting_started/vectorize.cpp:62-66 | when totals over the columns of a are the distances |
| DistanceKernels.OneFeatureGoesWrong | examples/getting_started/vectorize.cpp:110 | two numbers against one number for which the totals are not the distances |
| DistanceKernels.DistTile2Fails | examples/getting_started/vectorize.cpp:134-139 | the second tiled form fails exactly for columns of length one, unless there is a single pair of them |
| DistanceKernels.DistTile2IsDistance | examples/getting_started/vectorize.cpp:120-141 | whenever it does not fail, it gives the distances, through the change of shape from (1, alen, blen) |
| Bits.AndUpper | examples/machine_learning/geneticalgorithm.cpp:53-54 | the upper mask removes exactly the bits below the crossover point |
| GeneticSearch.CrossoverPair | examples/machine_learning/geneticalgorithm.cpp:57-61 | for every crossover point, two children of two parents are on the grid, have the bits from there up from one parent and the ones below from the other, and add up to what their parents do |
| Bits.MutantDiffersOnce | examples/machine_learning/geneticalgorithm.cpp:72-73 | a mutant differs from its child in exactly one bit |
| Bits.MutantDiffersAt | examples/machine_learning/geneticalgorithm.cpp:72-73 | namely in the bit drawn |
| Bits.FlipsStayBelow | examples/machine_learning/geneticalgorithm.cpp:72-73 | flipping any of the drawn bits keeps all coordinates below n exactly when n is a power of two |
| Fitness.LookupIsObjective | examples/machine_learning/geneticalgorithm.cpp:94-96 | for every even n the mirrored space, indexed linearly, holds min(x, n-(x+1)) + min(y, n-(y+1)) |
| Fitness.SortIndices | examples/machine_learning/geneticalgorithm.cpp:28 | the sorted indices are a permutation that puts the values in ascending order |
| Fitness.SelectedDominate | examples/machine_learning/geneticalgorithm.cpp:24-32 | every selected sample is at least as fit as every other one, and none is selected twice |
| GeneticSearch.Search.constructor | examples/machine_learning/geneticalgorithm.cpp:82-104 | the first generation is on the grid and its cached values are right |
| GeneticSearch.Search.Reproduce | examples/machine_learning/geneticalgorithm.cpp:34-80 | the next generation is on the grid with right cached values; its first half are children of the fittest, crossed over pair by pair at the bits drawn, its second half are mutants of these, each in exactly the bit drawn for it |
| GeneticSearch.Search.Run | examples/machine_learning/geneticalgorithm.cpp:138-157 | so is every generation of every run, whatever is drawn |
| GeneticSearch.Search.Find | examples/machine_learning/geneticalgorithm.cpp:106-157 | every generation is bred from the one before; the maximum is the largest value of the last generation but one, is within one percent of the best point of the grid whenever the draws did not run out, and no earlier generation came that close |
| Otsu.ScatterByMoments | examples/image_processing/binary_thresholding.cpp:42-48 | the scatter of the levels below any one around any value from their three prefix sums |
| OtsuOptimality.TotalVariance | examples/image_processing/binary_thresholding.cpp:42-51 | at every split with pixels on both sides, the total scatter is the scatter within the classes plus the between-class variance over the number of pixels |
| OtsuOptimality.VarianceIsExact | examples/image_processing/binary_thresholding.cpp:51 | below 2^17 pixels the array holds the between-class variance |
| OtsuOptimality.SearchesAgree | examples/image_processing/binary_thresholding.cpp:53-59 | the two searches for the maximum stop at the same level |
| OtsuOptimality.ThresholdMinimisesWithin | examples/image_processing/binary_thresholding.cpp:31-60 | for every histogram below 2^17 pixels with a split, the threshold is the first level with the least scatter within the classes |
| OtsuOptimality.ThresholdExists | examples/image_processing/binary_thresholding.cpp:53-59 | there is a threshold exactly when two different levels are occupied |
| OtsuLimit.WrappingSplit | examples/image_processing/binary_thresholding.cpp:51 | from 2^17 pixels on, some split has class sizes whose product wraps around to less than the number of pixels |
| OtsuLimit.PixelLimit | examples/image_processing/binary_thresholding.cpp:31-60 | the threshold is the best one for all histograms of 256 levels and n pixels exactly when n is below 2^17 |

## Left out

- Floating-point rounding and overflow: all quantities are exact reals; a zero divisor gives the outcomes `NotFinite`, `NaN` or a guarded zero.
- Windows, image files, timers, progress bars, printed text other than the generated header, devices and `argv`.
- Sparse storage in the conjugate gradient benchmark: `spA` is taken to hold the matrix A.
- Random generators: every draw is an input; the state of the generators is not modelled.
- Roots, fourth roots, sine and cosine: parameters, constrained by their algebraic law where a proof needs it; of the sine at the wormhole only that it is not zero between 0 and 3.
- Arrays as values: in-place sharing, lazy evaluation and memory management of the library are not captured.
- Arrays with an extent of zero in the distance kernels, whose reductions return the empty array unchanged.
- deterministicHash: a parameter of the generated header.
- The output file of bin2cpp and the text of its verbose, version and usage messages.
- Image reading and the computation of the initial velocities in the lattice Boltzmann program; mass and momentum are not claimed across the walls and the fixed cells.
- LatticeSimulation.Simulation.Simulate: stops at a frame in which some cell has no mass, where the program goes on with numbers that are not finite.
- Initial conditions of the gravity simulation and the pixel positions of its particles; the loop of steps and collisions is not modelled as one run, since collisions change the momenta.
- Camera, coordinate changes and background lookup of the ray tracer: functions of the single ray; the steps take the acceleration as one too, which `Geodesics` gives for the three metrics. Where a divisor of a metric, of its inverse or of a difference is zero, zeros stand for entries that are not finite.
- The lexer that the scanner is compared with knows neither raw strings, trigraphs nor line continuations, and lets a literal go on over the end of its line.
- Spacing of the difference points of the metric: no property depends on it but that it is not zero, since the wormhole metric is quadratic.
- RayTracer.Tracer.Run: takes a bound on the steps in place of termination, and says exactly when the run stops within it.
- CheckIntervals.RemovalKeepsPictureIff: speaks only of rays that never come under the horizon cut; without removal the others are never blackened. The two rays of `RenderTwoRays` are light rays the tracer can be given, but faster than those of the program's camera.
- GeneticSearch.Search.Find: takes the draws of a bounded number of generations in place of termination, which depends on the draws; the side is at most 2^16, so that a linear index fits 32 bits.
- Fitness.SortIndices: keeps equal values in their order; the library's sort may not.
- Otsu threshold: colour conversion, the binning of pixels, the final binarisation, and images of 2^32 pixels and more.
