/**
 * The image recreation loop: configuration loading and validation, the size
 * parser, the two hosted-API stages with their error-to-`None` convention,
 * and the folder driver that filters, truncates and gates.
 *
 * The hosted APIs, `Image.open` and `os.listdir` are parameters (oracles):
 * `opens(path)` says whether the image opens, `complete(req)` and
 * `generate(req)` give the API's answer or `None` where the call raised,
 * `listdir(folder)` gives the listing or `None` where it raised.
 */
module ImageRecreation {
  import opened Results
  import opened Sequences
  import opened Strings
  import OsPath

  /** A parsed INI file: section name to (option name to value). */
  type Config = map<string, map<string, string>>

  /** The exceptions the script raises, told apart as far as the model needs. */
  datatype Error =
    | KeyError(message: string)     // a missing section or option; for `load_config`, the listing of missing keys
    | UnpackError(parts: nat)       // `width, height = ...` on a list of another length (a ValueError)
    | IntError(literal: string)     // `int(literal)` rejected its argument (a ValueError)
    | ListDirError(folder: string)  // `os.listdir(folder)` raised (an OSError)

  /** `config[section][option]`, raising `KeyError` on the first missing name. */
  function Lookup(config: Config, section: string, option: string): (r: Result<string, Error>)
    ensures r.Ok? <==> section in config && option in config[section]
    ensures r.Ok? ==> r.value == config[section][option]
    ensures section !in config ==> r == Err(KeyError(section))
    ensures section in config && option !in config[section] ==> r == Err(KeyError(option))
  {
    if section !in config then Err(KeyError(section))
    else if option !in config[section] then Err(KeyError(option))
    else Ok(config[section][option])
  }

  // ---------------------------------------------------------------- load_config

  const RequiredKeys: seq<string> := ["api_key", "text_model", "dalle_model", "size", "max_tokens"]

  /** The keys of `keys` absent from `section`, in the order of `keys`. */
  function Missing(keys: seq<string>, section: map<string, string>): (r: seq<string>)
    ensures forall k :: k in r <==> k in keys && k !in section
    ensures SubsequenceOf(r, keys)
    decreases |keys|
  {
    if keys == [] then []
    else if keys[0] !in section then [keys[0]] + Missing(keys[1..], section)
    else Missing(keys[1..], section)
  }

  const MissingKeysPrefix: string :=
    "\U{26A0}\U{FE0F} Config dosyas\U{0131}ndaki \U{015F}u anahtarlar eksik: "

  function MissingKeysMessage(missing: seq<string>): string
  {
    MissingKeysPrefix + Join(missing, ", ")
  }

  /** `load_config` on an already parsed file. */
  function LoadConfig(config: Config): (r: Result<Config, Error>)
    ensures r.Ok? <==> "API" in config && forall k :: k in RequiredKeys ==> k in config["API"]
    ensures r.Ok? ==> r.value == config
    ensures "API" !in config ==> r == Err(KeyError("API"))
    ensures "API" in config && r.Err? ==>
      r.error == KeyError(MissingKeysMessage(Missing(RequiredKeys, config["API"])))
  {
    if "API" !in config then Err(KeyError("API"))
    else
      var missing := Missing(RequiredKeys, config["API"]);
      if missing != [] then Err(KeyError(MissingKeysMessage(missing)))
      else Ok(config)
  }

  /** The message names every key of the list it is built from. */
  lemma MessageNamesKey(missing: seq<string>, k: string)
    requires k in missing
    ensures Contains(MissingKeysMessage(missing), k)
  {
    var i :| 0 <= i < |missing| && missing[i] == k;
    var joined := Join(missing, ", ");
    var o := JoinOffset(missing, ", ", i);
    JoinContainsPart(missing, ", ", i);
    OccursAtAfterPrefix(MissingKeysPrefix, joined, k, o);
  }

  /** The error `load_config` raises names every missing required key. */
  lemma LoadConfigNamesMissingKey(config: Config, k: string)
    requires "API" in config && k in RequiredKeys && k !in config["API"]
    ensures LoadConfig(config).Err? && LoadConfig(config).error.KeyError?
    ensures Contains(LoadConfig(config).error.message, k)
  {
    MessageNamesKey(Missing(RequiredKeys, config["API"]), k);
  }

  // ---------------------------------------------------------------- parse_size

  /** `parse_size`: "WIDTHxHEIGHT" to a pair of integers, split at a lower-case 'x'. */
  function ParseSize(sizeStr: string): (r: Result<(int, int), Error>)
    ensures Count(sizeStr, 'x') != 1 ==> r == Err(UnpackError(Count(sizeStr, 'x') + 1))
    ensures r.Ok? ==> Count(sizeStr, 'x') == 1
  {
    var parts := Split(sizeStr, 'x');
    if |parts| != 2 then Err(UnpackError(|parts|))
    else if ParseInt(parts[0]).None? then Err(IntError(parts[0]))
    else if ParseInt(parts[1]).None? then Err(IntError(parts[1]))
    else Ok((ParseInt(parts[0]).value, ParseInt(parts[1]).value))
  }

  /** `f"{width}x{height}"`. */
  function FormatSize(width: int, height: int): string
  {
    IntToString(width) + "x" + IntToString(height)
  }

  lemma IntLiteralHasNoX(s: string)
    requires IsIntLiteral(s)
    ensures 'x' !in s
  {
  }

  /** On a string with exactly one 'x', `parse_size` succeeds iff both sides are integer literals. */
  lemma ParseSizeOneSeparator(width: string, height: string)
    requires 'x' !in width && 'x' !in height
    ensures ParseSize(width + "x" + height) ==
      if ParseInt(width).None? then Err(IntError(width))
      else if ParseInt(height).None? then Err(IntError(height))
      else Ok((ParseInt(width).value, ParseInt(height).value))
  {
    SplitAtFirstSeparator(width, 'x', height);
    SplitWithoutSeparator(height, 'x');
    assert width + "x" + height == width + ['x'] + height;
  }

  /** Parsing the formatted pair gives the pair back, for every width and height. */
  lemma ParseSizeFormatSize(width: int, height: int)
    ensures ParseSize(FormatSize(width, height)) == Ok((width, height))
  {
    IntLiteralHasNoX(IntToString(width));
    IntLiteralHasNoX(IntToString(height));
    ParseIntOfIntToString(width);
    ParseIntOfIntToString(height);
    ParseSizeOneSeparator(IntToString(width), IntToString(height));
  }

  /** The worked example: "1024x768" is 1024 wide and 768 high. */
  lemma ParseSizeExample()
    ensures ParseSize("1024x768") == Ok((1024, 768))
  {
    ParseSizeFormatSize(1024, 768);
    assert FormatSize(1024, 768) == "1024x768";
  }

  /** No range check: a zero size is accepted. */
  lemma ParseSizeZero()
    ensures ParseSize("0x0") == Ok((0, 0))
  {
    ParseSizeFormatSize(0, 0);
    assert FormatSize(0, 0) == "0x0";
  }

  /** Without a separator the unpacking fails. */
  lemma ParseSizeNoSeparator()
    ensures ParseSize("1024") == Err(UnpackError(1))
  {
  }

  /** The separator is a lower-case 'x' only. */
  lemma ParseSizeUpperCaseSeparator()
    ensures ParseSize("1024X768") == Err(UnpackError(1))
  {
  }

  /** Two separators give three parts, and the unpacking fails. */
  lemma ParseSizeTwoSeparators()
    ensures ParseSize("1x2x3") == Err(UnpackError(3))
  {
  }

  /** One separator but a side that is not an integer literal. */
  lemma ParseSizeNotIntegers()
    ensures ParseSize("abcxdef") == Err(IntError("abc"))
  {
    ParseSizeOneSeparator("abc", "def");
    assert "abc" + "x" + "def" == "abcxdef";
    assert !IsIntLiteral("abc");
  }

  // ---------------------------------------------------------------- stages

  datatype CompletionRequest = CompletionRequest(apiKey: string, model: string, prompt: string, maxTokens: int)

  datatype ImageRequest = ImageRequest(apiKey: string, prompt: string, n: nat, size: string, model: string)

  const DescribePrompt: string := "Please describe the contents of this image: "

  /** The text-completion request `generate_description_from_image` sends for `imagePath`. */
  function DescriptionRequest(imagePath: string, config: Config, apiKey: string): (r: Result<CompletionRequest, Error>)
    ensures r.Ok? <==> "API" in config && "text_model" in config["API"] && "max_tokens" in config["API"]
                       && IsIntLiteral(config["API"]["max_tokens"])
    ensures r.Ok? ==> r.value.apiKey == apiKey && r.value.model == config["API"]["text_model"]
                      && r.value.prompt == DescribePrompt + imagePath
                      && ParseInt(config["API"]["max_tokens"]) == Some(r.value.maxTokens)
  {
    match Lookup(config, "API", "text_model")
    case Err(e) => Err(e)
    case Ok(model) =>
      match Lookup(config, "API", "max_tokens")
      case Err(e) => Err(e)
      case Ok(maxTokens) =>
        match ParseInt(maxTokens)
        case None => Err(IntError(maxTokens))
        case Some(n) => Ok(CompletionRequest(apiKey, model, DescribePrompt + imagePath, n))
  }

  /**
   * `generate_description_from_image`: every error is caught and becomes `None`;
   * otherwise the first completion's text, stripped.
   */
  function GenerateDescription(imagePath: string, config: Config, apiKey: string,
                               opens: string -> bool, complete: CompletionRequest -> Option<string>): (r: Option<string>)
    ensures r.None? <==> !opens(imagePath) || DescriptionRequest(imagePath, config, apiKey).Err?
                         || complete(DescriptionRequest(imagePath, config, apiKey).value).None?
    ensures r.Some? ==> r.value == Strip(complete(DescriptionRequest(imagePath, config, apiKey).value).value)
    ensures r.Some? && r.value != [] ==> !IsSpace(r.value[0]) && !IsSpace(r.value[|r.value| - 1])
  {
    if !opens(imagePath) then None
    else
      match DescriptionRequest(imagePath, config, apiKey)
      case Err(_) => None
      case Ok(request) =>
        match complete(request)
        case None => None
        case Some(text) => Some(Strip(text))
  }

  /** Python truthiness of a stage result: neither `None` nor the empty string. */
  predicate IsTruthy(d: Option<string>) { d.Some? && d.value != "" }

  /** A description is truthy exactly when the API answered with some non-whitespace text. */
  lemma DescriptionTruthy(imagePath: string, config: Config, apiKey: string,
                          opens: string -> bool, complete: CompletionRequest -> Option<string>)
    ensures IsTruthy(GenerateDescription(imagePath, config, apiKey, opens, complete)) <==>
      && opens(imagePath)
      && DescriptionRequest(imagePath, config, apiKey).Ok?
      && var answer := complete(DescriptionRequest(imagePath, config, apiKey).value);
      && answer.Some?
      && exists i :: 0 <= i < |answer.value| && !IsSpace(answer.value[i])
  {
  }

  /** The image-generation request `create_image_from_description` sends. */
  function ImageGenRequest(description: string, config: Config, apiKey: string): (r: Result<ImageRequest, Error>)
    ensures r.Ok? <==> && "API" in config && "size" in config["API"]
                       && ParseSize(config["API"]["size"]).Ok? && "dalle_model" in config["API"]
    ensures r.Ok? ==> && r.value.apiKey == apiKey && r.value.prompt == description && r.value.n == 1
                      && r.value.model == config["API"]["dalle_model"]
                      && var (width, height) := ParseSize(config["API"]["size"]).value;
                      && r.value.size == FormatSize(width, height)
                      && ParseSize(r.value.size) == Ok((width, height))
    ensures "API" in config && "size" in config["API"] && ParseSize(config["API"]["size"]).Err? ==>
      r == Err(ParseSize(config["API"]["size"]).error)
    ensures && "API" in config && "size" in config["API"] && ParseSize(config["API"]["size"]).Ok?
            && "dalle_model" !in config["API"]
            ==> r == Err(KeyError("dalle_model"))
  {
    match Lookup(config, "API", "size")
    case Err(e) => Err(e)
    case Ok(sizeStr) =>
      match ParseSize(sizeStr)
      case Err(e) => Err(e)
      case Ok(pair) =>
        match Lookup(config, "API", "dalle_model")
        case Err(e) => Err(e)
        case Ok(model) =>
          ParseSizeFormatSize(pair.0, pair.1);
          Ok(ImageRequest(apiKey, description, 1, FormatSize(pair.0, pair.1), model))
  }

  /** `create_image_from_description`: every error is caught and becomes `None`; otherwise the URL. */
  function CreateImage(description: string, config: Config, apiKey: string,
                       generate: ImageRequest -> Option<string>): (r: Option<string>)
    ensures r.Some? <==> ImageGenRequest(description, config, apiKey).Ok?
                         && generate(ImageGenRequest(description, config, apiKey).value).Some?
    ensures r.Some? ==> r == generate(ImageGenRequest(description, config, apiKey).value)
  {
    match ImageGenRequest(description, config, apiKey)
    case Err(_) => None
    case Ok(request) => generate(request)
  }

  // ---------------------------------------------------------------- the folder driver

  /** Python's `name.endswith(('png', 'jpg', 'jpeg', 'gif', 'bmp'))`: case-sensitive, no dot needed. */
  predicate HasImageSuffix(name: string)
  {
    EndsWith(name, "png") || EndsWith(name, "jpg") || EndsWith(name, "jpeg")
    || EndsWith(name, "gif") || EndsWith(name, "bmp")
  }

  /** The list comprehension in `process_images_in_folder`: the listed names with an image suffix, in listing order. */
  function FilterImages(listing: seq<string>): (r: seq<string>)
    ensures forall f :: f in r <==> f in listing && HasImageSuffix(f)
    ensures SubsequenceOf(r, listing)
    decreases |listing|
  {
    if listing == [] then []
    else if HasImageSuffix(listing[0]) then [listing[0]] + FilterImages(listing[1..])
    else FilterImages(listing[1..])
  }

  /** Each image name is kept as often as it is listed, and every other name is dropped. */
  lemma {:induction false} FilterImagesKeepsCount(listing: seq<string>, f: string)
    ensures multiset(FilterImages(listing))[f] == if HasImageSuffix(f) then multiset(listing)[f] else 0
    decreases |listing|
  {
    if listing != [] {
      FilterImagesKeepsCount(listing[1..], f);
      assert listing == [listing[0]] + listing[1..];
    }
  }

  lemma SuffixExamples()
    ensures HasImageSuffix("a.png") && HasImageSuffix("c.jpg") && HasImageSuffix("d.jpeg")
    ensures HasImageSuffix("notapng")
    ensures !HasImageSuffix("b.txt") && !HasImageSuffix("A.PNG")
  {
  }

  /** The folder and the names the driver goes through. */
  datatype Selection = Selection(folder: string, names: seq<string>)

  /** The set-up of `process_images_in_folder`: read the folder, list and filter it, and cut the list at `num_images`. */
  function SelectImages(config: Config, listdir: string -> Option<seq<string>>): (r: Result<Selection, Error>)
    ensures r.Ok? <==> && "Settings" in config && "image_folder" in config["Settings"]
                       && listdir(config["Settings"]["image_folder"]).Some?
                       && "num_images" in config["Settings"]
                       && ParseInt(config["Settings"]["num_images"]).Some?
    ensures r.Ok? ==> r.value.folder == config["Settings"]["image_folder"]
    ensures r.Ok? ==> forall i :: 0 <= i < |r.value.names| ==> HasImageSuffix(r.value.names[i])
  {
    match Lookup(config, "Settings", "image_folder")
    case Err(e) => Err(e)
    case Ok(folder) =>
      match listdir(folder)
      case None => Err(ListDirError(folder))
      case Some(listing) =>
        var images := FilterImages(listing);
        match Lookup(config, "Settings", "num_images")
        case Err(e) => Err(e)
        case Ok(count) =>
          match ParseInt(count)
          case None => Err(IntError(count))
          case Some(n) => Ok(Selection(folder, PySliceTo(images, n)))
  }

  /**
   * The processed names are the first `num_images` filtered names in listing
   * order (all of them when fewer); a negative count drops names from the end.
   */
  lemma SelectedAreFirstImages(config: Config, listdir: string -> Option<seq<string>>)
    requires SelectImages(config, listdir).Ok?
    ensures var sel := SelectImages(config, listdir).value;
            var listing := listdir(sel.folder).value;
            var images := FilterImages(listing);
            var n := ParseInt(config["Settings"]["num_images"]).value;
            && |sel.names| <= |images| && sel.names == images[..|sel.names|]
            && sel.names == PySliceTo(images, n)
            && (0 <= n ==> |sel.names| == if n < |images| then n else |images|)
            && (n < 0 ==> |sel.names| == if |images| + n < 0 then 0 else |images| + n)
            && SubsequenceOf(sel.names, listing)
  {
    var sel := SelectImages(config, listdir).value;
    var images := FilterImages(listdir(sel.folder).value);
    SubsequenceOfPrefix(images, listdir(sel.folder).value, |sel.names|);
  }

  /** The listing of the example folder keeps its three images, in order. */
  lemma FilterImagesExample()
    ensures FilterImages(["a.png", "b.txt", "c.jpg", "d.jpeg"]) == ["a.png", "c.jpg", "d.jpeg"]
  {
    SuffixExamples();
    var listing := ["a.png", "b.txt", "c.jpg", "d.jpeg"];
    assert listing[1..] == ["b.txt", "c.jpg", "d.jpeg"];
    assert listing[1..][1..] == ["c.jpg", "d.jpeg"];
    assert listing[1..][1..][1..] == ["d.jpeg"];
    assert listing[1..][1..][1..][1..] == [];
  }

  /** The example folder (a.png, b.txt, c.jpg, d.jpeg) with a limit of 2: a.png and c.jpg. */
  lemma SelectImagesExample(listdir: string -> Option<seq<string>>)
    requires listdir("images") == Some(["a.png", "b.txt", "c.jpg", "d.jpeg"])
    ensures SelectImages(map["Settings" := map["image_folder" := "images", "num_images" := "2"]], listdir)
            == Ok(Selection("images", ["a.png", "c.jpg"]))
  {
    FilterImagesExample();
    ParseIntTwo();
    assert PySliceTo(["a.png", "c.jpg", "d.jpeg"], 2) == ["a.png", "c.jpg"];
  }

  lemma ParseIntTwo()
    ensures ParseInt("2") == Some(2)
  {
  }

  /** Whether the synthesiser ran for a file, and what it returned. */
  datatype Synthesis = Skipped | Attempted(url: Option<string>)

  /** One iteration of the driver loop: the path, the description stage's result, the synthesis. */
  datatype Visit = Visit(path: string, description: Option<string>, synthesis: Synthesis)

  /** The rules one iteration follows for file `name` of `folder`. */
  ghost predicate FollowsRules(v: Visit, folder: string, name: string, config: Config, apiKey: string,
                               opens: string -> bool, complete: CompletionRequest -> Option<string>,
                               generate: ImageRequest -> Option<string>)
  {
    && v.path == OsPath.Join(folder, name)
    && v.description == GenerateDescription(v.path, config, apiKey, opens, complete)
    && (v.synthesis.Attempted? <==> IsTruthy(v.description))
    && (v.synthesis.Attempted? ==> v.synthesis.url == CreateImage(v.description.value, config, apiKey, generate))
  }

  /**
   * `process_images_in_folder`: a setup error propagates before any file is
   * visited; otherwise every selected file is visited in order, and the
   * synthesiser runs for a file exactly when its description is truthy.
   */
  method ProcessImagesInFolder(config: Config, apiKey: string, listdir: string -> Option<seq<string>>,
                               opens: string -> bool, complete: CompletionRequest -> Option<string>,
                               generate: ImageRequest -> Option<string>)
    returns (r: Result<seq<Visit>, Error>)
    ensures SelectImages(config, listdir).Err? ==> r == Err(SelectImages(config, listdir).error)
    ensures SelectImages(config, listdir).Ok? ==>
      && r.Ok?
      && |r.value| == |SelectImages(config, listdir).value.names|
      && forall i :: 0 <= i < |r.value| ==>
           FollowsRules(r.value[i], SelectImages(config, listdir).value.folder,
                        SelectImages(config, listdir).value.names[i], config, apiKey, opens, complete, generate)
  {
    var selection := SelectImages(config, listdir);
    if selection.Err? {
      return Err(selection.error);
    }
    var folder, names := selection.value.folder, selection.value.names;
    var visits: seq<Visit> := [];
    for idx := 0 to |names|
      invariant |visits| == idx
      invariant forall i :: 0 <= i < idx ==>
        FollowsRules(visits[i], folder, names[i], config, apiKey, opens, complete, generate)
    {
      var imagePath := OsPath.Join(folder, names[idx]);
      var description := GenerateDescription(imagePath, config, apiKey, opens, complete);
      var synthesis := Skipped;
      if description.Some? && description.value != "" {
        var url := CreateImage(description.value, config, apiKey, generate);
        synthesis := Attempted(url);
      }
      var visit := Visit(imagePath, description, synthesis);
      assert FollowsRules(visit, folder, names[idx], config, apiKey, opens, complete, generate);
      visits := visits + [visit];
    }
    r := Ok(visits);
  }

  /**
   * `main`: load the configuration, take the API key from it, run the driver.
   * A configuration error stops the run before any file is visited or any
   * API request is made; `main` catches whatever propagates.
   */
  method Run(config: Config, listdir: string -> Option<seq<string>>, opens: string -> bool,
             complete: CompletionRequest -> Option<string>, generate: ImageRequest -> Option<string>)
    returns (r: Result<seq<Visit>, Error>)
    ensures LoadConfig(config).Err? ==> r == Err(LoadConfig(config).error)
    ensures LoadConfig(config).Ok? ==> (r.Ok? <==> SelectImages(config, listdir).Ok?)
    ensures LoadConfig(config).Ok? && SelectImages(config, listdir).Err? ==>
      r == Err(SelectImages(config, listdir).error)
    ensures r.Ok? ==> && LoadConfig(config).Ok?
                      && |r.value| == |SelectImages(config, listdir).value.names|
                      && forall i :: 0 <= i < |r.value| ==>
                           FollowsRules(r.value[i], SelectImages(config, listdir).value.folder,
                                        SelectImages(config, listdir).value.names[i], config,
                                        config["API"]["api_key"], opens, complete, generate)
  {
    var loaded := LoadConfig(config);
    if loaded.Err? {
      return Err(loaded.error);
    }
    var apiKey := config["API"]["api_key"];
    r := ProcessImagesInFolder(config, apiKey, listdir, opens, complete, generate);
  }
}
