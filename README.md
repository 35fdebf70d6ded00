# Image recreation and PDF image extraction, modelled in Dafny

The repository holds two independent one-shot scripts:

- `img_recreation_openai/image_recreation.py` loads an INI configuration and checks that the
  five required API keys are present, lists an image folder, keeps the names ending in an image
  suffix, cuts the list at `num_images`, and for each file asks a hosted text-completion API for a
  description and, when the description is non-empty, asks a hosted image API for a new image of
  the configured size. Both stages catch every error and return `None`.
- `img_recreation_openai/images_from_pdf.py` creates an output folder, opens a PDF and writes the
  bytes of every image reference of every page to `image_1.png`, `image_2.png`, … in page order
  and then image-list order, with one counter for the whole document.

The Dafny project models that logic with every library call turned into a parameter:

| file | module | models |
|---|---|---|
| `results.dfy` | `Results` | `Option` (Python's `None`) and `Result` (a raised exception) |
| `sequences.dfy` | `Sequences` | subsequences, Python's `s[:n]` for any integer `n` |
| `strings.dfy` | `Strings` | `str(int)`, decimal `int()`, `split`, `join`, `endswith`, `strip` |
| `ospath.dfy` | `OsPath` | POSIX `os.path.join` of two components |
| `image_recreation.dfy` | `ImageRecreation` | `load_config`, `parse_size`, the two stages, the folder driver, `main` |
| `images_from_pdf.dfy` | `ImagesFromPdf` | `extract_images_from_pdf` |

The configuration is the parsed file, `map<string, map<string, string>>`. `Image.open`, the two
hosted APIs and `os.listdir` are total functions passed in (`opens`, `complete`, `generate`,
`listdir`); `None` from one of them stands for the call raising. The driver returns the list of
its iterations (`Visit`: path, description result, and whether the synthesiser ran and what it
returned). The PDF is the list of each page's image references, or `None` when opening raised;
`extract` gives an image object's bytes; the run returns the log of its file-system effects
(`MakeDirs`, then one `WriteFile` per image) and its final count.

The extraction is imperative, as in the source: `ExtractImagesFromPdf` runs the page loop and
`SavePageImages` the image loop, each with invariants tying the counter and the effect log to the
references written so far (`WritesInOrder`). The driver `ProcessImagesInFolder` is a loop over
the selected files with the gating `if` of the source.

Two behaviours of the code are worth knowing. A configuration without an `API` section fails
with `KeyError('API')` before the list of missing keys is built, so that error names no key.
`num_images` goes through `int()` and a Python slice, so a negative value processes all images
but the last `|n|`; the model keeps that slice semantics.

## Model

| member | source | states |
|---|---|---|
| `ImageRecreation.Lookup` | img_recreation_openai/image_recreation.py:64 | `config[section][option]` succeeds exactly when both names are present and returns the value held for them (values are taken as `config[s][o]` returns them, after interpolation); a missing section raises `KeyError(section)`, and a present section without the option raises `KeyError(option)` |
| `ImageRecreation.Missing` | img_recreation_openai/image_recreation.py:11-12 | the missing keys are exactly the required keys absent from the section, kept in the order of the required list |
| `ImageRecreation.LoadConfig` | img_recreation_openai/image_recreation.py:7-17 | loading succeeds exactly when the `API` section holds all five required keys and then returns the configuration unchanged; a missing section raises `KeyError('API')`; otherwise the error carries the message built from the missing keys |
| `ImageRecreation.MissingKeysMessage` | img_recreation_openai/image_recreation.py:15 | the error text: the warning prefix followed by the missing keys joined with `, ` (the f-string of `load_config`) |
| `ImageRecreation.MessageNamesKey` | img_recreation_openai/image_recreation.py:15 | the error message contains every key of the list it is built from |
| `ImageRecreation.LoadConfigNamesMissingKey` | img_recreation_openai/image_recreation.py:14-15 | every required key absent from the `API` section makes loading fail with a message that contains that key |
| `ImageRecreation.ParseSize` | img_recreation_openai/image_recreation.py:20-22 | a string whose number of lower-case `x` is not exactly one fails the two-name unpacking, with the number of parts it produced; success implies exactly one separator |
| `ImageRecreation.ParseSizeOneSeparator` | img_recreation_openai/image_recreation.py:21-22 | for a string with exactly one `x`, parsing succeeds iff both sides are integer literals, the width is checked first, and the result is their values |
| `ImageRecreation.ParseSizeFormatSize` | img_recreation_openai/image_recreation.py:47-52 | for all integers w and h, parsing `f"{w}x{h}"` gives back (w, h), so the rebuilt size string names the same size |
| `ImageRecreation.FormatSize` | img_recreation_openai/image_recreation.py:52 | the size string sent, `f"{width}x{height}"`: both integers printed as `str()` prints them, joined by a lower-case `x` |
| `ImageRecreation.ParseSizeExample` | img_recreation_openai/image_recreation.py:20-22 | `"1024x768"` parses to (1024, 768) |
| `ImageRecreation.ParseSizeZero` | img_recreation_openai/image_recreation.py:22 | there is no range check: `"0x0"` parses to (0, 0) |
| `ImageRecreation.ParseSizeNoSeparator` | img_recreation_openai/image_recreation.py:21 | `"1024"` fails: one part cannot be unpacked into two |
| `ImageRecreation.ParseSizeUpperCaseSeparator` | img_recreation_openai/image_recreation.py:21 | `"1024X768"` fails: only a lower-case `x` separates |
| `ImageRecreation.ParseSizeTwoSeparators` | img_recreation_openai/image_recreation.py:21 | `"1x2x3"` fails: three parts cannot be unpacked into two |
| `ImageRecreation.ParseSizeNotIntegers` | img_recreation_openai/image_recreation.py:22 | `"abcxdef"` fails on `int("abc")` |
| `ImageRecreation.DescriptionRequest` | img_recreation_openai/image_recreation.py:31-35 | the completion request exists exactly when `text_model` and an integer `max_tokens` are configured, and carries the key, that model, the prompt with the image path appended and that token limit |
| `ImageRecreation.GenerateDescription` | img_recreation_openai/image_recreation.py:25-42 | the stage returns `None` exactly when the image does not open, the request cannot be built or the API call raises; otherwise it returns the stripped first completion, which neither starts nor ends with whitespace |
| `ImageRecreation.DescriptionTruthy` | img_recreation_openai/image_recreation.py:36-42 | the description is truthy exactly when every step succeeded and the API's text holds a non-whitespace character |
| `ImageRecreation.IsTruthy` | img_recreation_openai/image_recreation.py:75 | the test `if description:` holds exactly for a result that is neither `None` nor the empty string |
| `ImageRecreation.ImageGenRequest` | img_recreation_openai/image_recreation.py:47-54 | the image request is built exactly when the size is configured and parses and `dalle_model` is configured; it carries the key, the description as prompt, one image, the configured model, and the size rebuilt as `f"{width}x{height}"` from the parsed pair, which parses back to that pair; an unparsable size, or else a missing `dalle_model`, is the stage's error |
| `ImageRecreation.CreateImage` | img_recreation_openai/image_recreation.py:45-60 | the stage returns a URL exactly when the request can be built and the API call answers, and then returns that answer; every error becomes `None` |
| `ImageRecreation.FilterImages` | img_recreation_openai/image_recreation.py:67 | the kept names are exactly the listed names ending in png, jpg, jpeg, gif or bmp, in listing order |
| `ImageRecreation.HasImageSuffix` | img_recreation_openai/image_recreation.py:67 | `f.endswith(('png', 'jpg', 'jpeg', 'gif', 'bmp'))`: the name ends in one of the five suffixes, case-sensitively and without requiring a dot |
| `ImageRecreation.FilterImagesKeepsCount` | img_recreation_openai/image_recreation.py:67 | each image name is kept as many times as it is listed, and every other name is dropped |
| `ImageRecreation.SuffixExamples` | img_recreation_openai/image_recreation.py:67 | the suffix test needs no dot (`notapng` passes) and is case-sensitive (`A.PNG` fails) |
| `ImageRecreation.FilterImagesExample` | img_recreation_openai/image_recreation.py:67 | of `a.png`, `b.txt`, `c.jpg`, `d.jpeg` the three images are kept, in order |
| `ImageRecreation.SelectImages` | img_recreation_openai/image_recreation.py:64-69 | a selection exists exactly when `image_folder` is configured and lists and `num_images` is configured and an integer; it is taken from the configured folder, and every selected name has an image suffix |
| `ImageRecreation.SelectedAreFirstImages` | img_recreation_openai/image_recreation.py:69 | the selected names are Python's `images[:n]` of the filtered names: a prefix of length min(n, number of images) for n ≥ 0, and of length max(0, number of images + n) for negative n (the last \|n\| names dropped); they keep listing order |
| `ImageRecreation.SelectImagesExample` | img_recreation_openai/image_recreation.py:64-69 | the folder `a.png`, `b.txt`, `c.jpg`, `d.jpeg` with a limit of 2 selects `a.png` and `c.jpg` |
| `ImageRecreation.ProcessImagesInFolder` | img_recreation_openai/image_recreation.py:63-77 | a setup error propagates before any file is visited; otherwise every selected file is visited, in order, at its joined path; the synthesiser runs for a file exactly when its description is truthy, and a failed file never stops the loop |
| `ImageRecreation.Run` | img_recreation_openai/image_recreation.py:80-91 | a configuration error ends the run before any file is visited or request made; otherwise a folder set-up error of the driver is the run's error, and a successful run follows the driver, with the configured API key in every request |
| `Strings.ParseInt` | img_recreation_openai/image_recreation.py:22 | `int()` succeeds exactly on an optionally signed decimal literal, with the sign of its value given by the sign character |
| `Strings.ParseIntLeadingZero` | img_recreation_openai/image_recreation.py:22 | for a non-empty digit string d, `int("0" + d) == int(d)`: leading zeros are accepted and do not change the value |
| `Strings.ParseIntPlusSign` | img_recreation_openai/image_recreation.py:22 | for a non-empty digit string d, `int("+" + d) == int(d)` |
| `Strings.ParseIntMinusSign` | img_recreation_openai/image_recreation.py:22 | for a non-empty digit string d, `int("-" + d) == -int(d)`; with the two lemmas above and `ParseIntOfIntToString` this fixes the value of every accepted literal |
| `Strings.IntToString` | img_recreation_openai/image_recreation.py:52 | `str(i)` is an integer literal that starts with `-` exactly for negative `i`, has no `+` sign, and has no leading zero (`0` alone for zero) |
| `Strings.DigitsValueOfNatToString` | img_recreation_openai/image_recreation.py:52 | the digits printed for a natural number have that number as their value |
| `Strings.ParseIntOfIntToString` | img_recreation_openai/image_recreation.py:52 | `int(str(i)) == i` for every integer |
| `Strings.IntToStringInjective` | img_recreation_openai/images_from_pdf.py:24 | different integers print differently |
| `Strings.Split` | img_recreation_openai/image_recreation.py:21 | `split` on one character gives one more part than there are separators, and no part contains the separator |
| `Strings.JoinSplit` | img_recreation_openai/image_recreation.py:21 | joining the parts of a split with the separator gives back the original string |
| `Strings.Join` | img_recreation_openai/image_recreation.py:15 | `sep.join(parts)`: the parts in order with the separator between neighbours; each part occurs at its offset (`JoinContainsPart`) |
| `Strings.SplitWithoutSeparator` | img_recreation_openai/image_recreation.py:21 | a string without the separator splits into itself alone |
| `Strings.SplitAtFirstSeparator` | img_recreation_openai/image_recreation.py:21 | splitting a string cuts off the text before its first separator as the first part |
| `Strings.JoinContainsPart` | img_recreation_openai/image_recreation.py:15 | every part occurs verbatim in the joined string, at its computed offset |
| `Strings.Strip` | img_recreation_openai/image_recreation.py:36 | `strip()` removes a whitespace-only prefix and suffix and keeps the rest contiguous; the result neither starts nor ends with whitespace and is empty exactly when the input is all whitespace |
| `Strings.EndsWith` | img_recreation_openai/image_recreation.py:67 | `s.endswith(suffix)`: the last `len(suffix)` characters of `s` are exactly `suffix`, compared character by character |
| `OsPath.Join` | img_recreation_openai/image_recreation.py:70 | a relative name is appended to the folder and ends the joined path; an absolute name replaces the folder |
| `OsPath.JoinSeparator` | img_recreation_openai/image_recreation.py:70 | between a folder and a relative name the joined path has exactly one `/`: none is added after an empty folder or one ending in `/`, otherwise one `/` follows the folder |
| `OsPath.JoinInjective` | img_recreation_openai/images_from_pdf.py:24 | in one folder, different relative names give different paths |
| `Sequences.PySliceTo` | img_recreation_openai/image_recreation.py:69 | `s[:n]` is a prefix of `s`: its first n elements (all of them when fewer) for n ≥ 0, and all but the last -n (none when fewer) for negative n |
| `Sequences.SubsequenceOfPrefix` | img_recreation_openai/image_recreation.py:69 | a prefix of an order-preserving selection is still order-preserving |
| `ImagesFromPdf.Flatten` | img_recreation_openai/images_from_pdf.py:13-18 | the page-major sequence of references has as many elements as all pages' image lists together |
| `ImagesFromPdf.FlattenStep` | img_recreation_openai/images_from_pdf.py:13-18 | processing one more page appends exactly its image list; an empty page appends nothing |
| `ImagesFromPdf.FlattenAt` | img_recreation_openai/images_from_pdf.py:12-29 | image `i` of page `p` is reference number `TotalImages(pages[..p]) + i` of the document: the counter runs on across pages |
| `ImagesFromPdf.ImageNameInjective` | img_recreation_openai/images_from_pdf.py:24 | `image_j.png` and `image_k.png` coincide only for j = k |
| `ImagesFromPdf.ImageName` | img_recreation_openai/images_from_pdf.py:24 | `f"image_{n}.png"`: the counter printed as `str()` prints it between `image_` and `.png` |
| `ImagesFromPdf.NthWrite` | img_recreation_openai/images_from_pdf.py:20-26 | the write of the n-th image: the bytes of its reference written to `os.path.join(output_folder, f"image_{n}.png")` |
| `ImagesFromPdf.WritePathsDistinct` | img_recreation_openai/images_from_pdf.py:24-29 | writes with different numbers go to different paths in the output folder |
| `ImagesFromPdf.WritesInOrderAppend` | img_recreation_openai/images_from_pdf.py:24-29 | writing one more image under the next number extends the log of numbered writes |
| `ImagesFromPdf.WritesInOrderPrefix` | img_recreation_openai/images_from_pdf.py:18-29 | later writes leave the earlier part of the log as it was, one entry per new reference |
| `ImagesFromPdf.WritesInOrderDistinct` | img_recreation_openai/images_from_pdf.py:24-29 | in a log of numbered writes every effect after the first is a write and no two writes share a path, so no file of the run overwrites another |
| `ImagesFromPdf.WritesInOrderPageMajor` | img_recreation_openai/images_from_pdf.py:13-29 | image `i` of page `p` is written to `image_n.png` with n = `TotalImages(pages[..p]) + i + 1`, with that reference's bytes |
| `ImagesFromPdf.SavePageImages` | img_recreation_openai/images_from_pdf.py:18-29 | the image loop of one page advances the counter by the page's image count, appends one write per reference in list order, each under the next number, and changes nothing written before |
| `ImagesFromPdf.ExtractImagesFromPdf` | img_recreation_openai/images_from_pdf.py:4-31 | the folder is created before any write; a PDF that fails to open stops the run with nothing written; otherwise the k-th reference in page-major order is written, with its bytes, to `image_k.png` in the folder, the final count is the number of references, duplicates are written again, and no two writes share a path |
| `ImagesFromPdf.ExampleDocument` | img_recreation_openai/images_from_pdf.py:12-31 | pages with two, zero and two images give four references, in page order, so `image_1.png` to `image_4.png` are written and the count is 4 |

## Left out

- The hosted-API calls, `Image.open`, `os.listdir` and the global `openai.api_key` assignment: the
  calls are parameters whose answer (or `None` for a raised error) is given; the key is passed to
  each stage, as the value `main` assigns before any call.
- `configparser` interpolation: the configuration map holds each value as `config[s][o]` returns
  it, already interpolated (`%%` read as `%`, `%(name)s` substituted). A read that raises
  `InterpolationSyntaxError` (a lone `%`) is not modelled. In the source, such a key passes
  `load_config` (its membership test does not interpolate), and the later read raises, for example
  `config['API']['api_key']` in `main`, which then visits no file.
- Reading and parsing the INI file: the model starts from the parsed sections. Case-insensitive
  option names and the `DEFAULT` section of `configparser` are not modelled.
- `Strings.ParseInt`: accepts an optional sign and ASCII decimal digits only; the surrounding
  whitespace, underscores and non-ASCII digits that Python's `int()` also accepts are rejected.
- `ImageRecreation.Run`: the printed messages (the description, the URL, the error texts and the
  final count of the PDF script) are not modelled; the caught error is returned instead of printed.
- `ImagesFromPdf.ExtractImagesFromPdf`: errors while creating the folder, extracting an image or
  writing a file are not modelled (each of these calls always succeeds here); only the failure to
  open the PDF is.
- The image format of the extracted bytes: they are written under a `.png` name whatever they are.
- The order of `os.listdir` is whatever the given listing is; no sort order is assumed.
- The module-level example call at the end of `images_from_pdf.py` (a fixed PDF path).
- The response shapes of the hosted APIs (`choices[0].text`, `data[0].url`): the given answer is
  the text or URL, and `None` covers a missing entry as well as a raised call.
