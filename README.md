# mlabtex in Dafny

mlabtex renders LaTeX text, or any raster image, as a textured surface in a
mayavi scene. This project models the logic mlabtex itself contains:

- **Image-type resolution and reader dispatch** (`mlabimg` in
  `mlabtex/core.py`). The type is an explicit `typ`, or else the path's
  extension without its dot, lower-cased. Python's `os.path.splitext` is
  modelled the POSIX way. The type is looked up in the 12-entry `IMREAD`
  table of tvtk reader classes. An unknown type raises `ValueError`.
- **The surface grid**. `np.mgrid[0 : dim_x + 1, 0 : dim_y + 1] * scale / ref`
  becomes a sequence of rows of points. The reference height is
  `ref_y_extent`, or else the image's own height.
- **The renderer fallback** of `render_latex`. sympy is tried first and
  matplotlib second. `RenderError` is raised only when both fail, and its
  message joins both messages.
- **`mlabimg` and `mlabtex` as steps that change state**. Image loads are
  recorded in an `ImageFiles` object. The model shows that an unsupported
  type loads nothing, and that `mlabtex` loads the reference image and then
  the text image.
- **The rotations of the legacy module** `mlabtex/mlabtex.py`. These are
  `rot_x`, `rot_y`, `rot_z`, and the pipeline of its `mlabtex`: build the
  grid arrays, shift them in place, fill the height, and rotate about the
  anchor in the order x, y, z. An angle enters only through its cosine and
  sine, as a pair `Turn(c, s)`. A real angle satisfies `c * c + s * s == 1`.

Files: `results.dfy` (Option, Result, the two exception types),
`points.dfy` (3D points), `path_ext.dfy` (`splitext` and `lower`),
`imread.dfy` (`IMREAD`), `render.dfy` (`render_latex`), `grid.dfy` (the
`mgrid` surface), `image_dispatch.dfy` (`mlabimg`, `mlabtex`),
`rotation.dfy` (`rot_x`, `rot_y`, `rot_z`, the orientation step) and
`text_surface.dfy` (the legacy surface pipeline over 2D arrays).

The outside world enters as parameters:
- The outcome of each renderer for a formula is a `Render.Runs` value.
- The pixel extents the tvtk reader reports for a file come from the
  function `ImageFiles.extentOf`.
- `os.linesep` is the parameter `sep`.
- The names of the two temporary files are the parameters `refFile` and
  `pngFile`.

Temporary files are not part of this model. Note that `mlabtex` in
`mlabtex/core.py` does not remove them when rendering fails: `TmpFile`
creates each file with `delete=False` (line 55), and `reffile.close()`
(line 423) and `pngfile.close()` (line 443), which unlink them, are skipped
when `render_latex` raises. The file stays on disk.

## Model

| member | source | states |
|---|---|---|
| PathExt.RFind | mlabtex/core.py:307 | the index of the last occurrence of a character, or -1 when there is none, as `str.rfind` used by `splitext` |
| PathExt.SplitExt | mlabtex/core.py:307 | `os.path.splitext`: root and extension concatenate back to the path |
| PathExt.ExtensionShape | mlabtex/core.py:307 | the extension is empty, or a dot followed by no dot and no slash |
| PathExt.Basename | mlabtex/core.py:307 | the final path component: it has no slash, ends the path, and is the whole path or starts right after a slash |
| PathExt.LeadingDots | mlabtex/core.py:307 | the number of leading dots of a file name: all dots before it, a non-dot after it |
| PathExt.HasExtensionIff | mlabtex/core.py:307 | the extension is non-empty exactly when the file name has a dot after its leading dots |
| PathExt.ExtensionInBasename | mlabtex/core.py:307 | the extension is a suffix of the final path component |
| PathExt.NoDotNoExtension | mlabtex/core.py:307 | a path without a dot has an empty extension |
| PathExt.LowerChar | mlabtex/core.py:307 | `lower` on one character: the result is not upper case, non-capitals are unchanged, and a capital becomes its small letter (code point plus 32) |
| PathExt.LowerFolds | mlabtex/core.py:307 | `s.lower()` keeps the length, has no capitals, keeps every non-capital, and turns each capital into its small letter |
| PathExt.CaseFold | mlabtex/core.py:307 | two characters lower to the same one exactly when they are equal or one is the capital of the other |
| PathExt.LowerIdempotent | mlabtex/core.py:307 | lower-casing twice is lower-casing once |
| PathExt.SplitExtLower | mlabtex/core.py:307 | splitting a lower-cased path gives the lower-cased extension |
| ImRead.TypesOf | mlabtex/core.py:14-27 | the inverse of the 12-entry `IMREAD` table: for each reader class, exactly the types that select it |
| ImRead.SupportedKeys | mlabtex/core.py:14-27 | the keys of `IMREAD` are exactly the 12 listed types, all distinct |
| ImRead.KeysAreLowerWords | mlabtex/core.py:14-27 | every key is a non-empty word of lower-case letters |
| ImRead.SharedReaders | mlabtex/core.py:14-27 | two distinct keys share a reader exactly when they are `jpg`/`jpeg` or `mha`/`mhd` |
| ImRead.EveryReaderReachable | mlabtex/core.py:14-27 | each of the 10 reader classes is the value of some key |
| ImageDispatch.ResolveType | mlabtex/core.py:306-307 | an explicit type is kept verbatim; otherwise the lower-cased extension is a dot followed by the type, or the type is empty when there is no extension |
| ImageDispatch.ResolvedFromPathIsPlain | mlabtex/core.py:307 | a type taken from a path has no dot, no slash and no capital |
| ImageDispatch.ResolveIgnoresCase | mlabtex/core.py:307 | a type taken from a path does not depend on the case of the path |
| ImageDispatch.ResolveUpperCase | mlabtex/core.py:307 | `"A.PNG"` resolves to `"png"` |
| ImageDispatch.ResolveLastDot | mlabtex/core.py:307 | `"a.tar.gz"` resolves to `"gz"` |
| ImageDispatch.ResolveHiddenFile | mlabtex/core.py:307 | `"dir.d/.bashrc"` resolves to the empty type |
| ImageDispatch.ReaderFor | mlabtex/core.py:306-310 | a reader is chosen exactly when the resolved type is a key of `IMREAD`, and it is the table's reader for that key |
| ImageDispatch.UnsupportedNamesType | mlabtex/core.py:308-309 | a rejection is a `ValueError` whose message starts with the fixed text and ends with the type |
| ImageDispatch.NoExtensionRejected | mlabtex/core.py:307-309 | a path without an extension is rejected, and the message names the empty type |
| ImageDispatch.ExplicitTypeVerbatim | mlabtex/core.py:306-309 | an explicit type is accepted exactly when it is a key; `typ="PNG"` is rejected where the extension `.PNG` is accepted |
| ImageDispatch.PngDispatch | mlabtex/core.py:428-440 | `mlabtex` passes `typ="png"`, which always selects the PNG reader |
| ImageDispatch.ImageFiles.constructor | mlabtex/core.py:317-320 | a fresh image store has loaded nothing |
| ImageDispatch.ImageFiles.Load | mlabtex/core.py:317-320 | a load is appended to the log, and the reader reports the file's extents |
| ImageDispatch.DefaultRefTopAtScale | mlabtex/core.py:324-326 | `scale` is the vertical scale of the image: without `ref_y_extent`, the top column of the grid lies exactly at height `scale` |
| ImageDispatch.MlabImg | mlabtex/core.py:306-344 | an unsupported type returns its `ValueError` and loads nothing; otherwise one load of the path with the chosen reader, then the grid over the extents, with the orientation and position passed through |
| ImageDispatch.MlabTex | mlabtex/core.py:416-443 | a failed reference render raises its `RenderError` and loads nothing; a failed text render raises its `RenderError` after the reference load; otherwise the reference and the text are loaded in that order, and the text grid uses the reference image's height |
| Render.RenderLatex | mlabtex/core.py:233-246 | matplotlib runs only when sympy fails; the result fails exactly when both fail, with the message of both |
| Render.RenderErrorMessage | mlabtex/core.py:239-246 | the `RenderError` message is as long as the header, both messages and three separators together, and starts with the header |
| Render.MessageCarriesBoth | mlabtex/core.py:239-246 | the message is header, separator, sympy message, separator, matplotlib message, separator, in that order |
| Render.MessageDeterminesBoth | mlabtex/core.py:239-246 | given the length of the first message, the error message determines both messages |
| Grid.MGrid | mlabtex/core.py:326-327 | the grid has `dim_x + 1` rows of `dim_y + 1` points |
| Grid.GridLattice | mlabtex/core.py:326-327 | the corner is the origin and the offset between any two points is their index offset times `scale / ref`, with z zero |
| Grid.GridFarCorner | mlabtex/core.py:324-326 | the far corner is `(dim_x, dim_y) * scale / ref`; with `ref = dim_y` the last column lies at height `scale` |
| Grid.GridInFootprint | mlabtex/core.py:326 | with a non-negative scale every point lies between the origin and the far corner |
| Grid.GridScaleLinear | mlabtex/core.py:326 | multiplying the scale by `c` multiplies every point by `c` |
| Rotation.RotX | mlabtex/mlabtex.py:15-36 | `rot_x` keeps x, fixes the base point, and is the identity for angle 0 |
| Rotation.RotY | mlabtex/mlabtex.py:39-60 | `rot_y` keeps y, fixes the base point, and is the identity for angle 0 |
| Rotation.RotZ | mlabtex/mlabtex.py:63-84 | `rot_z` keeps z, fixes the base point, and is the identity for angle 0 |
| Rotation.RotXIsometry | mlabtex/mlabtex.py:15-36 | for a true angle, `rot_x` keeps the distance to the base point |
| Rotation.RotYIsometry | mlabtex/mlabtex.py:39-60 | for a true angle, `rot_y` keeps the distance to the base point |
| Rotation.RotZIsometry | mlabtex/mlabtex.py:63-84 | for a true angle, `rot_z` keeps the distance to the base point |
| Rotation.RotXAngle | mlabtex/mlabtex.py:15-36 | `rot_x` turns the offset from the base point in the (y, z) plane by the angle whose cosine is c and sine is s, from y toward z |
| Rotation.RotYAngle | mlabtex/mlabtex.py:39-60 | `rot_y` turns the offset from the base point in the (z, x) plane by the angle whose cosine is c and sine is s, from z toward x |
| Rotation.RotZAngle | mlabtex/mlabtex.py:63-84 | `rot_z` turns the offset from the base point in the (x, y) plane by the angle whose cosine is c and sine is s, from x toward y |
| Rotation.RotXCongruent | mlabtex/mlabtex.py:15-36 | for a true angle, `rot_x` keeps the distance between any two points |
| Rotation.RotYCongruent | mlabtex/mlabtex.py:39-60 | for a true angle, `rot_y` keeps the distance between any two points |
| Rotation.RotZCongruent | mlabtex/mlabtex.py:63-84 | for a true angle, `rot_z` keeps the distance between any two points |
| Rotation.RotXInverse | mlabtex/mlabtex.py:15-36 | turning by the opposite angle undoes `rot_x` |
| Rotation.RotYInverse | mlabtex/mlabtex.py:39-60 | turning by the opposite angle undoes `rot_y` |
| Rotation.RotZInverse | mlabtex/mlabtex.py:63-84 | turning by the opposite angle undoes `rot_z` |
| Rotation.RotXCompose | mlabtex/mlabtex.py:15-36 | two `rot_x` turns about one base point are one turn by the sum of the angles |
| Rotation.RotYCompose | mlabtex/mlabtex.py:39-60 | two `rot_y` turns about one base point are one turn by the sum of the angles |
| Rotation.RotZCompose | mlabtex/mlabtex.py:63-84 | two `rot_z` turns about one base point are one turn by the sum of the angles |
| Rotation.Orient | mlabtex/mlabtex.py:237-239 | rotating x, then y, then z about the anchor fixes the anchor, and is the identity when all angles are 0 |
| Rotation.OrientCongruent | mlabtex/mlabtex.py:237-239 | for true angles, the orientation keeps the distance between any two points |
| Rotation.OrientRigid | mlabtex/mlabtex.py:237-239 | for true angles, the orientation keeps distances to the anchor and is undone by the opposite turns in the opposite order |
| TextSurface.TextMesh | mlabtex/mlabtex.py:228-239 | the legacy surface has `dim_x + 1` rows of `dim_y + 1` points |
| TextSurface.CornerAtAnchor | mlabtex/mlabtex.py:228-239 | grid point `(0, 0)` ends at the anchor `(x, y, z)` whatever the orientation |
| TextSurface.UnrotatedIsTranslated | mlabtex/mlabtex.py:228-239 | with all three angles zero, surface point `(i, j)` is `(x + i * scale / ref_y, y + j * scale / ref_y, z)`, the shifted grid of lines 228-231 |
| TextSurface.SurfaceAnchorDistance | mlabtex/mlabtex.py:228-239 | for true angles, each surface point is as far from the anchor as its grid point is from the origin |
| TextSurface.SurfaceCongruent | mlabtex/mlabtex.py:228-239 | for true angles, any two surface points are as far apart as the grid points they come from |
| TextSurface.MGridArrays | mlabtex/mlabtex.py:228 | the two `mgrid` arrays have shape `(dim_x + 1, dim_y + 1)`, and element `(i, j)` holds `i * scale / ref_y` and `j * scale / ref_y` |
| TextSurface.AddInPlace | mlabtex/mlabtex.py:229-230 | `+=` adds the value to every element in place |
| TextSurface.FilledLike | mlabtex/mlabtex.py:231 | `z * np.ones_like(surfx)` has the shape of `surfx` and holds `z` everywhere |
| TextSurface.MapPoints | mlabtex/mlabtex.py:237-239 | one rotation step maps every point of the three arrays |
| TextSurface.SurfacePoints | mlabtex/mlabtex.py:228-239 | three new arrays of shape `(dim_x + 1, dim_y + 1)` hold, point by point, the legacy surface `TextMesh` |

## Left out

- The LaTeX rasterisers `render_latex_sympy` and `render_latex_mpl` are calls into sympy, dvipng and matplotlib. Only their outcome is modelled, as `Render.Outcome`.
- The legacy `render_latex` of `mlabtex/mlabtex.py` (lines 87-130) is not modelled, nor are the render and image-load steps of the legacy `mlabtex` (lines 199-226). They write and read a temporary PNG through matplotlib. `TextSurface.SurfacePoints` takes the `dim_x`, `dim_y` and `ref_y` those steps produce as inputs.
- The LaTeX preamble and colour formatting of `render_latex_sympy` are not modelled. They are a constant string and float formatting.
- The tvtk readers, `tvtk.Texture`, `mlab.surf`, and the actor and lookup-table properties belong to a 3D rendering API. A reader is the `Reader` enum. Loading an image is the `Load` log plus the `extentOf` function. The surface is the `ImageSurface` value.
- The `figure` and `name` keyword arguments, `opacity`, `color` and `dpi` only pass through to the libraries above.
- `TmpFile`, `tempfile` and `os.unlink` are file-system I/O. The temporary file names are parameters.
- `np.cos`, `np.sin` and the degree-to-radian conversion of the legacy module are floating-point trigonometry. An angle is its pair `(c, s)`, and the rotation lemmas require `c * c + s * s == 1`.
- Floating point in general: coordinates are exact reals.
- `os.path.splitext` is modelled for POSIX paths only. The Windows variant, with `\` and drive letters, is not.
- `str.lower` is modelled for ASCII letters only.
- `str(typ)` for a `typ` that is not a string is not modelled. `typ` is a string or `None`.
- Grid.MGrid: requires `ref > 0`. In the source, a zero reference height makes numpy divide by zero and yield `inf` or `nan` coordinates, and a negative one mirrors the grid.
- ImageDispatch.MlabImg: requires a positive `ref_y_extent` when one is given, and a positive image height otherwise, for the same reason.
- ImageDispatch.MlabTex: requires the reference image of "I" to have a positive height, for the same reason.
- TextSurface.SurfacePoints: requires a positive reference height, for the same reason.
- TextSurface.MapPoints: `rot_x` returns its `x` argument itself, so the new `surfx` is the old array, and likewise for `rot_y` and `rot_z`. The model writes each rotation step into fresh arrays. The values are the same, but the aliasing is not modelled.
- ImRead.SupportedKeys: states the 12 listed types and that they are distinct. It does not state the cardinality of the key set as a number.
