# Sierpinski pyramid toy — verified model

`main.py` does two things that matter for this model:

- It draws a Sierpinski pyramid with `sierpinski_piramid` and `draw_pyramid`.
- It lets the user change the pyramid's depth and fill mode from the keyboard.

This project covers those two parts. Everything else in `main.py` is OpenGL and pygame plumbing and is not modelled.

- `pyramid.dfy`, module `Pyramid`, treats the two drawing functions as pure functions of type `seq<Primitive>`: `DrawPyramid` models `draw_pyramid`, and `Sierpinski` models `sierpinski_piramid`.
  - A primitive is one `glBegin` … `glEnd` block: its mode (`GL_POLYGON` or `GL_LINE_LOOP`), the colour set inside it, and its vertices in order. `Sierpinski` returns the same primitives main.py sends to OpenGL, in the same order.
  - The leaves of the recursion are also listed without drawing them (`Leaves`). The lemma `SierpinskiDrawsLeaves` shows that the generator's output is exactly these leaves drawn one after another.
  - The proved properties are about the leaves:
    - the number of leaves;
    - each leaf's size;
    - the children's leaves coming as consecutive blocks, in call order;
    - every vertex lying inside the root pyramid.
- `controls.dfy`, module `Controls`, models the two cells main.py updates inside its event loop: `iterations = [3]` and `colored = [False]`.
  - `Apply` is the specification of one event. `ApplyAll` applies a batch of events in order.
  - The class `FractalControls` keeps `depth` and `colored` as fields. Its methods `HandleEvent` and `HandleEvents` change those fields the way the KEYDOWN branch does. Each method is proved to match the specification.
  - `Frame` is the drawing call main.py makes once per frame: depth and fill flag taken from the state, centre at the origin, length 2.

Coordinates are Dafny `real`s.

- Starting from length 2, every coordinate the program produces is a dyadic rational. At the depths it can reach, 1 to 6, binary floating point computes these values exactly, so modelling them as exact reals loses nothing.
- Depth is an unbounded `int`, just as it is in Python.

The shape is a square pyramid: four base corners and an apex. `draw_pyramid`, modelled by `DrawPyramid`, emits three primitives per leaf:

| primitive | vertices | what they are |
|---|---|---|
| bottom face | 4 | the four base corners `(x±a, y−a, z±a)` |
| side strip | 8 | alternates each base corner with the apex `(x, y+a, z)` |
| closing face | 4 | three base corners with the apex in third place |

All vertex offsets use the full parameter `a` (`half = a`, main.py line 59), not `a/2`. So a leaf of parameter `a` is `2a` wide.

The containment property concerns `Inside(p, c, a)`, the solid square pyramid with:
- base the square of half-width `a` at height `c.y − a`;
- apex `(c.x, c.y + a, c.z)`.

Each of the five children sits inside its parent's solid, so every vertex of every leaf lies inside the root solid. For the frame main.py draws, that keeps every emitted vertex inside the cube [−2, 2]³ (`Controls.FrameFits`).

## Model

| member | source | states |
|---|---|---|
| Pyramid.LeafPrimitives | main.py:58-90 | One leaf is exactly three primitives of 4, 8 and 4 vertices. All of them are `GL_POLYGON` in colour (1.0, 0.5, 0.8) when `colored` holds, and `GL_LINE_LOOP` in colour (1, 0, 0) otherwise. |
| Pyramid.LeafVertices | main.py:59-89 | Every leaf vertex is a base corner (x±a, y−a, z±a) or the apex (x, y+a, z), using the full `a`. The bottom face has four base corners, pairwise distinct when a ≠ 0. The side strip alternates corner and apex, starting with a corner. The closing face has the apex third and corners elsewhere. |
| Pyramid.LeafInside | main.py:58-90 | For a ≥ 0, every vertex a leaf emits lies inside that leaf's own solid pyramid. |
| Pyramid.LeafColoring | main.py:58-90 | Drawn filled or as wireframe, each of a leaf's three primitives has the same vertex list. |
| Pyramid.Sierpinski | main.py:93-103 | The output is 3·5^(iterations−1) primitives when iterations > 1, and 3 otherwise. Every primitive has the style `colored` selects, because the flag is passed down unchanged. |
| Pyramid.Leaves | main.py:93-103 | The leaf list has 5^(iterations−1) entries when iterations > 1, and 1 otherwise. |
| Pyramid.SierpinskiDrawsLeaves | main.py:93-103 | The generator's output equals its leaves, in call order, each drawn by `draw_pyramid`. |
| Pyramid.PrimitiveOfLeaf | main.py:96-103 | Primitive k of the output is primitive k mod 3 of leaf ⌊k/3⌋. |
| Pyramid.SingleLeaf | main.py:96-103 | Exactly one leaf is emitted if and only if iterations ≤ 1, including 0 and negative values. That leaf is `draw_pyramid` at (x, y, z) with the given length. |
| Pyramid.ColoringKeepsGeometry | main.py:93-103 | For every depth, the filled and wireframe outputs have the same length and the same vertex lists at every position. They differ in primitive kind at every position. |
| Pyramid.ChildBlock | main.py:97-101 | For iterations > 1, leaf i is leaf i − Offset(q) of the child q whose block holds i. The children come in the fixed order LowLow, HighLow, LowHigh, HighHigh, Upper. Each child has centre `ChildCenter` (x∓half, y−half, z∓half, or x, y+half, z), with half = length/2, and the blocks are 5^(iterations−2) long. |
| Pyramid.Halved | main.py:94 | Halving a non-negative length n times gives a value between 0 and the length. |
| Pyramid.HalvedIsDivision | main.py:94 | Halving n times, as the recursion does, equals dividing by 2^n. |
| Pyramid.LeavesHalved | main.py:93-103 | Every leaf has the root length halved once per level of recursion. |
| Pyramid.LeafCountAndSize | main.py:93-103 | For iterations = d > 1 there are 5^(d−1) leaves, each of edge parameter length/2^(d−1). For d ≤ 1 there is one leaf of the full length. |
| Pyramid.ChildContained | main.py:94-101 | Each child's solid (centre `ChildCenter`, parameter length/2) lies inside the parent's solid. |
| Pyramid.LeavesContained | main.py:93-103 | Every leaf's solid lies inside the root solid. |
| Pyramid.SierpinskiInside | main.py:58-103 | For length ≥ 0, every vertex the generator emits lies inside the root pyramid at (x, y, z) with parameter `length`. |
| Controls.Apply | main.py:127-141 | Four properties: (1) the fill flag flips if and only if the event is a `c` key-down; (2) depth rises by one if and only if the event is `w` while depth < 6, and falls by one if and only if the event is `s` while depth > 1; (3) depth never moves by more than one; (4) every other event changes nothing. Depth in [1, 6] stays in [1, 6]. |
| Controls.ApplyAllInRange | main.py:138-141 | Any sequence of events keeps a depth that starts in [1, 6] inside [1, 6]. |
| Controls.ApplyAllAppend | main.py:121-122 | Handling two batches of events in turn equals handling their concatenation. |
| Controls.InertEvents | main.py:127-141 | A sequence with no `c`, `w` or `s` key-down leaves depth and fill flag unchanged. This covers arrow keys, other keys and mouse events. |
| Controls.PressW | main.py:138-139 | From depth d ≤ 6, n presses of `w` give depth min(d + n, 6) and leave the fill flag unchanged. |
| Controls.PressS | main.py:140-141 | From depth d ≥ 1, n presses of `s` give depth max(d − n, 1) and leave the fill flag unchanged. |
| Controls.SaturatingPresses | main.py:117-141 | From the start state, ten presses of `w` stop at depth 6. Ten presses of `s` then stop at depth 1. |
| Controls.ColoredParity | main.py:136-137 | After any event sequence, the fill flag is flipped if and only if `c` was pressed an odd number of times. |
| Controls.FrameFits | main.py:176 | For every depth in [1, 6], a frame has between 3 and 9375 primitives. Every vertex lies inside the root pyramid at the origin with parameter 2, and so inside [−2, 2]³. |
| Controls.FractalControls.constructor | main.py:116-117 | The state starts at depth 3 with filling off. |
| Controls.FractalControls.HandleEvent | main.py:127-141 | The fields are updated by the same three guarded assignments as the source, and the new state is `Apply` of the old one. |
| Controls.FractalControls.HandleEvents | main.py:122-141 | After a batch of events is handled in order, the state is `ApplyAll` of the old state over the batch. The depth range is preserved. |

## Left out

- OpenGL, GLU and pygame calls (main.py:107-113, 169-181). These are window setup, clearing, flipping, waiting, and `glBegin`/`glVertex3f`/`glEnd` as side effects. The model keeps only the sequence of primitives those calls would receive.
- The `glPushMatrix`/`glPopMatrix` around the frame's drawing call. They only affect the GL matrix stack.
- `load_texture` (main.py:10-28). It is file I/O plus image decoding.
- `set_lights` (main.py:49-55). It only wraps GL calls and is never called.
- `draw_ground` (main.py:31-46). It draws one fixed textured quad and has no logic.
- Camera rotation on the arrow keys (main.py:128-135), zoom on the scroll wheel (main.py:143-147), and the idle rotation each frame (main.py:179). These change the floating-point matrix stack owned by OpenGL. In the model those events exist, and `Apply` proves they leave depth and fill flag unchanged.
- Drag-to-orbit (main.py:149-167). It reads the GL modelview matrix and uses floating-point `sqrt`. It also divides by `norm_xy`, which is zero when the mouse reports no movement (dx = dy = 0) while the left button is down. Python then raises `ZeroDivisionError` at `temp[0] / norm_xy`. Nothing catches it, so the program exits. `MouseMotion` events are modelled only as leaving the fractal parameters alone. `Apply(p, MouseMotion(..)) == p` therefore describes only the path on which the program keeps running.
- The quit event and process exit (main.py:123-125).
- Background-colour animation, light-colour keys and light nudging. They are absent from main.py.
- Floating point. Coordinates are exact reals. This is exact for the program's own inputs: length 2, depth at most 6, so every value is a multiple of 1/16. Colours are kept as the source's decimal literals, such as 0.8 in (1.0, 0.5, 0.8). `glColor3f` receives the nearest single-precision value instead, for example 0.800000011920929 for 0.8.
