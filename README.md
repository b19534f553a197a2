# msplot: a verified model of the Figure and Plot bookkeeping

msplot is a small C++ plotting library. It turns numeric vectors into SVG
line and scatter charts with axes, ticks and subplot grids. The repository
holds several near-identical versions of the same classes:

- the `MSPlot::Figure` of src/msplot.hpp: frames hold a list of curves, and
  the row is flipped to `rows - 1 - position / cols`, so position 0 gets the largest y;
- the `MSPlot::Figure` of msplot.hpp: each frame holds one series, which
  `plot` replaces;
- the early draft of msplot.h: frames carry no data;
- the `Plot::Figure` of msplot.cpp: `plot` appends and checks nothing;
- the stand-alone `Plot` chart of plot.cpp: limits persist across calls,
  and series are drawn as they arrive.

This project models the layout and bookkeeping of these classes. That is
the subplot grid arithmetic, the validation order of `plot`, how series are
stored, how data limits are collected, the default colour, and how many
segments, points and ticks each call draws. The SVG drawing itself is not
modelled.

The modules follow the source:

- `CppInt`: C++ integer division and remainder, which truncate toward zero,
  unlike Dafny's `/` and `%`.
- `Grid`: the grid formula that every `addSubplot` shares, written once.
  Its parameter `flipRows` selects the flipped row `rows - 1 - position / cols` of src/msplot.hpp.
- `Bounds`: finite doubles as reals bounded by `DBL_MAX`, and the limit fold.
  The fold starts from the sentinels `max()` / `lowest()`, and its steps are
  `std::min` / `std::max`.
- `Ticks`: the `for (i = 0; i <= n; i++)` tick loops, as values and pixels.
- `Errors`: `out_of_range`, `invalid_argument` and `runtime_error` as values.
  A method that throws in the source returns `Fail` and leaves its object
  unchanged.
- `SrcMsplotHpp`, `MsplotHpp`, `MsplotH`, `MsplotCpp` and `PlotCpp`, one per
  source file. Each Figure and the `Plot` chart of plot.cpp is a Dafny
  `class`, and its methods are stated against the old state. Frames are
  values, which the Figure methods replace in the list of frames.

The colours of the SVG library are modelled as colour names, that is, strings.

## Model

| member | source | states |
|---|---|---|
| CppInt.Div | msplot.h:61-64 | the quotient truncates toward zero: the remainder it leaves is smaller than the divisor and has the sign of the dividend |
| CppInt.Mod | msplot.h:63 | `a == (a / b) * b + a % b`, with the remainder below the divisor in magnitude and carrying the sign of the dividend |
| CppInt.DivModNonNegative | msplot.cpp:50-53 | for a non-negative dividend and a positive divisor, C++ and Euclidean division agree |
| CppInt.NegativeDividendTruncates | src/msplot.hpp:244-245 | on a negative dividend that a positive divisor does not divide, the C++ quotient is the Euclidean one plus one and the remainder is the Euclidean one minus the divisor, so `-1 / 2 == 0` and `-1 % 2 == -1` |
| Grid.GridCell | src/msplot.hpp:242-246 | the cell of `position` in a `rows` x `cols` grid; with positive counts and non-negative sizes the cell sizes are non-negative and `cols` cells fit across the width and `rows` down the height |
| Grid.CellsFit | msplot.h:61-62 | for a non-negative `extent`, `k` cells of size `extent / count` fit in `extent` for `0 <= k <= count` |
| Grid.RowAndColumn | msplot.h:63-64 | an in-range position has a column in `[0, cols)` and a row in `[0, rows)`, and is recovered as `row * cols + col` |
| Grid.CellInsideFigure | src/msplot.hpp:241-247 | for `0 <= position < rows * cols` and positive sizes, the cell lies inside `[0, width] x [0, height]`, with the row `position / cols` or flipped to `rows - 1 - position / cols` |
| Grid.CellsDisjoint | msplot.hpp:154-159 | two different in-range positions give cells that do not overlap, when each cell is at least one pixel |
| Grid.NegativePositionEscapes | src/msplot.hpp:236-246 | a negative position passes `position >= rows * cols` unrejected; when each cell is at least one pixel (`width >= cols`, `height >= rows`), with the row unflipped its cell always leaves the figure, and with the row flipped it does whenever `position % cols != 0` (a multiple of `cols` can land back inside) |
| Bounds.Zip | msplot.cpp:67-70 | the points `(x[i], y[i])` for every index of `x`, in order |
| Bounds.Min | src/msplot.hpp:58-61 | `std::min`: at most both arguments, and one of them |
| Bounds.Max | src/msplot.hpp:58-61 | `std::max`: at least both arguments, and one of them |
| Bounds.Widen | src/msplot.hpp:58-61 | one step of the fold: the new limits contain the old ones and the point |
| Bounds.Join | src/msplot.hpp:99-102 | combining two sets of limits gives limits that contain both, each limit taken from one of them |
| Bounds.BoundsOf | msplot.hpp:41-50 | the fold over the samples: the sentinels on no samples, and the point itself, in both coordinates, on one sample |
| Bounds.JoinAll | src/msplot.hpp:95-103 | the per-curve limits joined: the sentinels on no curves, and the limits of the only curve on one |
| Bounds.BoundsOfEncloses | src/msplot.hpp:56-62 | the min/max fold bounds every sample in both coordinates |
| Bounds.BoundsOfAttained | src/msplot.hpp:56-62 | on non-empty data each of the four limits is the coordinate of some sample |
| Bounds.BoundsOfConcat | src/msplot.hpp:95-103 | folding a concatenation gives the min/max of the folds of its parts |
| Bounds.JoinAllIsBoundsOfAll | src/msplot.hpp:95-103 | combining per-curve limits gives the limits of all samples together |
| Bounds.ScanBounds | src/msplot.hpp:49-65 | `getMinMax`: the loop computes the fold; it encloses every sample, each limit is attained when there is data, and the sentinels stay when there is none |
| Bounds.MinElement | plot.cpp:23 | `*min_element` of a non-empty range is an element and at most every element |
| Bounds.MaxElement | plot.cpp:24 | `*max_element` of a non-empty range is an element and at least every element |
| Ticks.TickValueEnds | src/msplot.hpp:161-163 | the first tick value is the low limit and the last is the high limit |
| Ticks.TickValueMonotone | src/msplot.hpp:163 | over an ordered range the tick values ascend and stay within it |
| Ticks.TickValue | src/msplot.hpp:163 | a tick value over an ordered range, at an index from 0 to `n`, lies within the range |
| Ticks.TickPixel | src/msplot.hpp:164 | a tick pixel with a non-negative length, at an index from 0 to `n`, lies on the axis from `pos` to `pos + len` |
| Ticks.TickPixelEnds | src/msplot.hpp:164 | the first tick pixel is the axis origin and the last is its far end; with a non-negative length every tick is on the axis |
| Ticks.TickList | src/msplot.hpp:161-164 | the first `m` ticks, tick `i` at value `lo + (hi - lo) * i / n` and pixel `pos + len * i / n` |
| Ticks.AxisTicks | src/msplot.hpp:161-173 | the loop emits exactly `n + 1` ticks, tick `i` at its value and pixel |
| SrcMsplotHpp.NewCurveData | src/msplot.hpp:26-47 | the `CurveData` constructor rejects vectors of different sizes first, then empty ones; otherwise `data[i] == (x[i], y[i])` for every index, with the given label and colour |
| SrcMsplotHpp.FrameAt | src/msplot.hpp:241-246 | a fresh frame holds no curves and is placed, with its size, exactly on the given cell |
| SrcMsplotHpp.CurveSamples | src/msplot.hpp:95-98 | the samples of each curve, curve by curve |
| SrcMsplotHpp.GroupLimits | src/msplot.hpp:89-103 | the limits of `Plot::group` are the joined per-curve limits, and equal the limits of all samples together; they enclose every sample, each is attained when there is a sample, in particular when there is a curve and every curve has a sample (which `CurveData` guarantees), and with no curves they are the sentinels |
| SrcMsplotHpp.PlotArea | src/msplot.hpp:78-85 | the plotting area keeps 80 pixels on the left and 40 on the other sides of the frame |
| SrcMsplotHpp.PlotAreaInsideFrame | src/msplot.hpp:78-85 | a frame of at least 120 x 80 pixels holds its plotting area |
| SrcMsplotHpp.XAxisTicks | src/msplot.hpp:157-175 | six x ticks from `x_min` to `x_max`, running from the left edge of the plotting area to its right edge |
| SrcMsplotHpp.YAxisTicks | src/msplot.hpp:176-196 | three y ticks from `y_min` to `y_max`, at pixels running from `y_pos` to `y_pos + height` of the plotting area |
| SrcMsplotHpp.Figure.constructor | src/msplot.hpp:229-232 | a figure of the given size with no frames |
| SrcMsplotHpp.Figure.CurrentSubplot | src/msplot.hpp:274 | the last frame, defined only when there is one |
| SrcMsplotHpp.Figure.AddSubplot | src/msplot.hpp:234-248 | `position >= rows * cols` fails with out_of_range and changes nothing; otherwise exactly one frame is appended on the grid cell, rows flipped; an in-range frame lies inside the figure; every curve stays non-empty |
| SrcMsplotHpp.Figure.Plot | src/msplot.hpp:250-272 | checks, in order: no frame (runtime_error), sizes differ (invalid_argument), empty (invalid_argument), and a failure changes nothing; otherwise one curve `zip(x, y)` is appended to the last frame, and every other frame and every earlier curve is unchanged |
| MsplotHpp.PlotArea | msplot.hpp:104-110 | `SubplotFrame::render` keeps 40 pixels on every side of the frame |
| MsplotHpp.PlotAreaInsideFrame | msplot.hpp:104-110 | a frame of at least 80 x 80 pixels holds its plotting area |
| MsplotHpp.FrameAt | msplot.hpp:154-158 | a fresh frame has no data, an empty label and the unset colour, and is placed, with its size, exactly on the given cell |
| MsplotHpp.RenderLimits | msplot.hpp:40-51 | the fold of `Plot::render` encloses every sample, each limit is attained on non-empty data, and the sentinels remain on empty data |
| MsplotHpp.RenderXTicks | msplot.hpp:70-83 | six x ticks from `x_min` to `x_max`, running from the left edge of the plotting area to its right edge |
| MsplotHpp.Figure.constructor | msplot.hpp:142-146 | a figure of the given size with no frames |
| MsplotHpp.Figure.CurrentSubplot | msplot.hpp:186-189 | the last frame, defined only when there is one |
| MsplotHpp.Figure.AddSubplot | msplot.hpp:148-160 | `position >= rows * cols` fails with out_of_range and changes nothing; otherwise one frame is appended on the grid cell, rows not flipped; an in-range frame lies inside the figure |
| MsplotHpp.Figure.Plot | msplot.hpp:162-184 | the same check order, and a failure changes nothing; otherwise the last frame's data becomes exactly `zip(x, y)`, replacing what it held, and its label and colour become the arguments; the other frames are unchanged |
| MsplotH.SubplotAt | msplot.h:59-64 | a default frame, with empty label and colour, placed on the cell |
| MsplotH.Figure.constructor | msplot.h:52-55 | a figure of the given size with no frames |
| MsplotH.Figure.AddSubplot | msplot.h:57-66 | no bounds check: every call appends exactly one frame on the grid cell and keeps the earlier frames; an in-range frame lies inside the figure |
| MsplotH.Figure.CurrentSubplot | msplot.h:68-71 | the last frame, defined only when there is one |
| MsplotCpp.Figure.constructor | msplot.cpp:41-44 | a figure of the given size with no frames |
| MsplotCpp.SubplotAt | msplot.cpp:48-53 | a default frame has no data, an empty label and an empty colour, and is placed, with its size, exactly on the given cell |
| MsplotCpp.Figure.AddSubplot | msplot.cpp:46-55 | no bounds check: every call appends exactly one frame on the grid cell and keeps the earlier frames; an in-range frame lies inside the figure |
| MsplotCpp.Figure.CurrentSubplot | msplot.cpp:57-60 | the last frame, defined only when there is one |
| MsplotCpp.Figure.Plot | msplot.cpp:62-73 | nothing is validated; the last frame keeps its samples and gains `(x[i], y[i])` for every index of `x`; its label and colour are overwritten, and the other frames are unchanged |
| PlotCpp.ChooseColor | plot.cpp:128-131 | a non-empty colour is kept; an empty one becomes palette entry `x_data.size() % 5` |
| PlotCpp.FirstDefaultIsRed | plot.cpp:124-131 | the index is taken after the series is stored and counts coloured series too, so a first series drawn without a colour gets "red" |
| PlotCpp.DefaultColorsCycle | plot.cpp:130 | default colours repeat every five series |
| PlotCpp.Plot.constructor | plot.cpp:101-110 | no series, the sentinel limits, an empty plot area, and the invariant established |
| PlotCpp.Plot.UpdateLimits | plot.cpp:19-35 | on the first series the limits become its exact extremes; later they become `min(old, min(x))` and `max(old, max(x))` |
| PlotCpp.Plot.AddSeries | plot.cpp:115-131 | series of different lengths fail with invalid_argument before anything changes; otherwise the series is appended to both lists and the limits are updated; the colour is chosen from the new count; the limits never shrink; the invariant is kept |
| PlotCpp.Plot.Plot | plot.cpp:115-146 | `plot`: the same rejection, changing no data, limits or drawing; otherwise `|x| - 1` segments between consecutive samples, in order, in the chosen colour and with the updated limits; the invariant and growing limits are kept |
| PlotCpp.Plot.DrawSegments | plot.cpp:134-145 | the segment loop appends exactly the segments `(x[i], y[i])` to `(x[i + 1], y[i + 1])` |
| PlotCpp.Plot.Scatter | plot.cpp:148-178 | `scatter`: the same rejection; otherwise one point per sample, in order, in the chosen colour and with the updated limits; the invariant and growing limits are kept |
| PlotCpp.Plot.DrawDots | plot.cpp:167-177 | the point loop appends exactly one point per sample |
| PlotCpp.Plot.DrawAxes | plot.cpp:37-97 | `draw_axes` appends the two axis lines, then six x ticks, then six y ticks, each a tick line followed by its label: 26 elements |
| PlotCpp.Plot.DrawTicks | plot.cpp:53-75 | one tick loop: six tick lines and labels at `lo + i * (hi - lo) / 5` |
| PlotCpp.AxisTickMarks | plot.cpp:55-75 | the first `m` ticks of one axis, each a line followed by its label, at the tick values |
| PlotCpp.AxisLines | plot.cpp:40-51 | two axis lines: the x axis horizontal at `height - padding` from `padding` to `width - padding`, and the y axis vertical at `padding` from `height - padding` up to `padding` |
| PlotCpp.AxisTicksSpanLimits | plot.cpp:53-57 | the first tick sits at the low limit and the sixth at the high limit |
| PlotCpp.Segments | plot.cpp:134-145 | segment `i` joins sample `i` to sample `i + 1` |
| PlotCpp.Dots | plot.cpp:167-177 | point `i` is drawn at sample `i` |
| PlotCpp.StoredLimitsInvariant | plot.cpp:19-35 | after a series is stored and the limits are updated, every stored x and y lies within the limits, and each limit is a stored sample |
| PlotCpp.CoordinateInvariant | plot.cpp:28-34 | the same for one coordinate: widened limits still enclose the old samples and take in the new series |

## Left out

- SVG rendering is not modelled: groups, polylines, lines, rectangles, text, titles, borders, `Document::toString` and `SVG::to_string`. It belongs to the SVG libraries, whose code is not part of this model. The elements `plot.cpp` adds are recorded as `Mark` values instead.
- The data-to-pixel transforms `transform_x` / `transform_y` and `scaled_x` / `scaled_y` are not modelled. They are floating-point divisions, undefined when `x_max == x_min`. Marks keep their data-space points together with the limits that scale them.
- Tick label formatting (`std::format`, `std::to_string`) is left out, and so are the tick-line pixel offsets of plot.cpp, which come from `transform_x` / `transform_y`.
- `save`, `toString`, file writes, `std::cerr` logging and `system("open ...")` are left out: they are I/O.
- 32-bit `int` overflow is not modelled: `rows * cols`, the grid products and `width * i` are unbounded integers. Overflow is undefined behaviour in C++.
- Floating-point rounding is not modelled. Min/max never round, and tick values are computed exactly over the reals. NaN and infinities are outside the `Double` type.
- Default-constructed colours: the colour of a fresh msplot.hpp frame is the library's default `Color`, which is not part of this model; it is modelled as the empty name.
- Undefined behaviour is excluded by preconditions, not modelled. That covers division by zero in `addSubplot` and `back()` on no frame. In plot.cpp it covers an empty series, where `x.size() - 1` wraps and `*min_element` dereferences an empty range. In msplot.cpp it covers a `y` shorter than `x`.
- `getCurrentSubplot` returns a mutable reference. The model returns the frame as a value, and the changes made through that reference happen inside the Figure methods. Aliasing between callers is not captured.
- Default arguments are not modelled; every call passes all its arguments. These are the `Plot` constructor's 800 x 600 with padding 50 (plot.h:63), the empty colour of plot.cpp's `plot` and `scatter` (plot.h:71, plot.h:79), `Color::Blue` in src/msplot.hpp and msplot.hpp, and "blue" in msplot.cpp.
- Double overflow on the sentinels is not modelled. With no samples, a frame with no curves in src/msplot.hpp, a frame with no data in msplot.hpp (the fold of msplot.hpp:41-50 feeds msplot.hpp:73), or `draw_axes` before any series in plot.cpp, the source computes `x_max - x_min` as `lowest() - max()`. That overflows to minus infinity, so tick 0 is `0 * -inf`, which is NaN, and the other ticks are infinite. The model computes these values exactly over the reals and gives finite values, so `XAxisTicks`, `YAxisTicks`, `RenderXTicks`, `DrawTicks` and `AxisTicksSpanLimits` describe sentinel limits only in that exact arithmetic.
- `draw_axes` runs inside `save` in plot.cpp. The model gives it as a method of its own.
- The test suite (test/svg_test.cpp), the demo programs (demo.cpp, msplot_demo.cpp and their waveforms), svgex.cpp and svgex.h are not part of this model.
