/**
 * `TransformComponent`: the page where the user picks the transformations and the output format,
 * either once for every selected image (batch mode) or image by image (individual mode), and then
 * asks the image service to apply them.
 */
module Transform {
  import opened Wrappers
  import opened Http
  import opened JsValues
  import opened Text
  import opened OrderedMaps
  import opened ImageModel
  import opened Images
  import opened TransformSelection

  const BatchValidationMessage := "Debes seleccionar al menos 1 transformación (máximo 4 + formato)"
  const MissingConfigsPrefix := "Faltan configuraciones en: "
  const NoImageName := "Selecciona una imagen"
  const TransformFailedMessage := "Error en la transformación"
  const DownloadRoute := "/images/download"
  const UploadRoute := "/images/upload"

  // ---------------------------------------------------------------------------------------------
  // What the page computes from its state
  // ---------------------------------------------------------------------------------------------

  /** `isBatchMode`: the upload's `applyToAll`, and batch mode when no upload configured anything. */
  function IsBatch(config: Option<UploadConfig>): (r: bool)
    ensures config.None? ==> r
    ensures config.Some? ==> r == config.value.applyToAll
  {
    match config
    case None => true
    case Some(c) => c.applyToAll
  }

  /** `images.map(img => img.id)`. */
  function ImageIds(images: seq<ImageFile>): (r: seq<string>)
    ensures |r| == |images|
    ensures forall i :: 0 <= i < |images| ==> r[i] == images[i].id
  {
    seq(|images|, i requires 0 <= i < |images| => images[i].id)
  }

  /** `images.map(img => img.name)`. */
  function ImageNames(images: seq<ImageFile>): (r: seq<string>)
    ensures |r| == |images|
    ensures forall i :: 0 <= i < |images| ==> r[i] == images[i].name
  {
    seq(|images|, i requires 0 <= i < |images| => images[i].name)
  }

  /** `getImageTransformations`: the list configured for an image, empty when it has no configuration. */
  function ConfigTransformations(configs: OrderedMap<ImageConfig>, imageId: string): (r: seq<Transformation>)
    ensures imageId !in configs.entries ==> r == []
    ensures imageId in configs.entries ==> r == configs.entries[imageId].transformations
  {
    match configs.Get(imageId)
    case None => []
    case Some(c) => c.transformations
  }

  /** The list the page is editing: the batch selection, or the current image's configuration. */
  function CurrentList(batch: bool, selection: seq<Transformation>, configs: OrderedMap<ImageConfig>,
                       currentId: string): seq<Transformation>
  {
    if batch then selection else ConfigTransformations(configs, currentId)
  }

  /** Every configuration is keyed by its own image id and holds a selection within budget. */
  predicate ConfigsWithinBudget(configs: OrderedMap<ImageConfig>) {
    forall k :: k in configs.entries ==>
      configs.entries[k].imageId == k && WithinBudget(configs.entries[k].transformations)
  }

  /**
   * The configuration map after replacing the current image's list with `ts`; with no configuration
   * for that image the map is left alone.
   */
  function WithTransformations(configs: OrderedMap<ImageConfig>, imageId: string, ts: seq<Transformation>)
    : (r: OrderedMap<ImageConfig>)
    requires configs.Valid()
    ensures r.Valid() && r.keys == configs.keys
    ensures imageId in configs.entries ==> r.entries[imageId] == configs.entries[imageId].(transformations := ts)
    ensures forall k :: k in configs.entries && k != imageId ==> k in r.entries && r.entries[k] == configs.entries[k]
    ensures imageId !in configs.entries ==> r == configs
    ensures imageId in configs.entries ==> ConfigTransformations(r, imageId) == ts
    ensures forall k :: k != imageId ==> ConfigTransformations(r, k) == ConfigTransformations(configs, k)
    ensures ConfigsWithinBudget(configs) && WithinBudget(ts) ==> ConfigsWithinBudget(r)
  {
    if imageId in configs.entries then configs.Put(imageId, configs.entries[imageId].(transformations := ts))
    else configs
  }

  /** `some(config => config.transformations.length === 0)`. */
  predicate AnyEmpty(configs: seq<ImageConfig>) {
    exists i :: 0 <= i < |configs| && configs[i].transformations == []
  }

  /** `hasValidationErrors`. */
  predicate HasErrors(batch: bool, selection: seq<Transformation>, configs: OrderedMap<ImageConfig>)
    requires configs.Valid()
  {
    if batch then selection == [] else AnyEmpty(configs.Values())
  }

  /**
   * The page is blocked in batch mode when nothing is selected, and in individual mode when some
   * image's configuration holds no transformation.
   */
  lemma HasErrorsMeaning(batch: bool, selection: seq<Transformation>, configs: OrderedMap<ImageConfig>)
    requires configs.Valid()
    ensures batch ==> (HasErrors(batch, selection, configs) <==> selection == [])
    ensures !batch ==> (HasErrors(batch, selection, configs) <==>
      exists k :: k in configs.entries && configs.entries[k].transformations == [])
  {
    var vs := configs.Values();
    if !batch {
      if AnyEmpty(vs) {
        var i :| 0 <= i < |vs| && vs[i].transformations == [];
        assert configs.keys[i] in configs.entries && configs.entries[configs.keys[i]] == vs[i];
      }
      if exists k :: k in configs.entries && configs.entries[k].transformations == [] {
        var k :| k in configs.entries && configs.entries[k].transformations == [];
        var i :| 0 <= i < |configs.keys| && configs.keys[i] == k;
        assert vs[i] == configs.entries[k];
      }
    }
  }

  /** The selected images whose configuration is missing or empty, in selection order. */
  function Incomplete(selected: seq<ImageFile>, configs: OrderedMap<ImageConfig>): (r: seq<ImageFile>)
    ensures |r| <= |selected|
  {
    if selected == [] then []
    else
      (if ConfigTransformations(configs, selected[0].id) == [] then [selected[0]] else [])
        + Incomplete(selected[1..], configs)
  }

  /** The listed images keep the selection order: the filter distributes over concatenation. */
  lemma {:induction false} IncompleteAppend(a: seq<ImageFile>, b: seq<ImageFile>, configs: OrderedMap<ImageConfig>)
    ensures Incomplete(a + b, configs) == Incomplete(a, configs) + Incomplete(b, configs)
  {
    if a == [] {
      assert a + b == b;
    } else {
      assert (a + b)[0] == a[0];
      assert (a + b)[1..] == a[1..] + b;
      IncompleteAppend(a[1..], b, configs);
    }
  }

  /** Exactly the selected images whose configuration is missing or empty are listed. */
  lemma {:induction false} IncompleteMembers(selected: seq<ImageFile>, configs: OrderedMap<ImageConfig>)
    ensures forall x :: x in Incomplete(selected, configs) <==>
      x in selected && ConfigTransformations(configs, x.id) == []
  {
    if selected != [] {
      IncompleteMembers(selected[1..], configs);
      assert selected == [selected[0]] + selected[1..];
    }
  }

  /** `validationMessage`. */
  function Message(batch: bool, selected: seq<ImageFile>, configs: OrderedMap<ImageConfig>): string {
    if batch then BatchValidationMessage
    else MissingConfigsPrefix + Join(ImageNames(Incomplete(selected, configs)), ", ")
  }

  /**
   * The individual-mode message always starts with its prefix; with nothing missing the prefix is all
   * of it, and with one image missing that image's name follows.
   */
  lemma MessageShape(selected: seq<ImageFile>, configs: OrderedMap<ImageConfig>)
    ensures |MissingConfigsPrefix| <= |Message(false, selected, configs)|
    ensures Message(false, selected, configs)[..|MissingConfigsPrefix|] == MissingConfigsPrefix
    ensures Incomplete(selected, configs) == [] ==> Message(false, selected, configs) == MissingConfigsPrefix
    ensures |Incomplete(selected, configs)| == 1 ==>
      Message(false, selected, configs) == MissingConfigsPrefix + Incomplete(selected, configs)[0].name
  {
    var names := Join(ImageNames(Incomplete(selected, configs)), ", ");
    assert Message(false, selected, configs) == MissingConfigsPrefix + names;
    assert (MissingConfigsPrefix + names)[..|MissingConfigsPrefix|] == MissingConfigsPrefix;
  }

  /**
   * When the configuration map has exactly the selected images as keys, the flag that blocks the page
   * and the message that names the images agree: some configuration is empty exactly when some
   * selected image is listed as missing.
   */
  lemma ValidationAgrees(selected: seq<ImageFile>, configs: OrderedMap<ImageConfig>)
    requires configs.Valid()
    requires forall k :: k in configs.entries <==> k in ImageIds(selected)
    ensures AnyEmpty(configs.Values()) <==> Incomplete(selected, configs) != []
  {
    var vs := configs.Values();
    var missing := Incomplete(selected, configs);
    var ids := ImageIds(selected);
    IncompleteMembers(selected, configs);
    if AnyEmpty(vs) {
      var i :| 0 <= i < |vs| && vs[i].transformations == [];
      var k := configs.keys[i];
      assert k in configs.entries && configs.entries[k] == vs[i];
      assert k in ids;
      var j :| 0 <= j < |selected| && ids[j] == k;
      assert ConfigTransformations(configs, selected[j].id) == [];
      assert selected[j] in missing;
    }
    if missing != [] {
      var x := missing[0];
      assert x in selected && ConfigTransformations(configs, x.id) == [];
      var j :| 0 <= j < |selected| && selected[j] == x;
      assert ids[j] == x.id;
      assert x.id in configs.entries;
      var i :| 0 <= i < |configs.keys| && configs.keys[i] == x.id;
      assert vs[i] == configs.entries[x.id];
    }
  }

  /** `initializeIndividualConfigs`: an empty JPG configuration per selected image, in selection order. */
  function InitialConfigs(images: seq<ImageFile>): (r: OrderedMap<ImageConfig>)
    ensures r.Valid()
    ensures forall k :: k in r.entries <==> k in ImageIds(images)
    ensures forall k :: k in r.entries ==> r.entries[k] == ImageConfig(k, [], JPG)
    decreases |images|
  {
    if images == [] then Empty()
    else
      var last := images[|images| - 1];
      var prefix := images[..|images| - 1];
      assert ImageIds(images) == ImageIds(prefix) + [last.id];
      InitialConfigs(prefix).Put(last.id, ImageConfig(last.id, [], JPG))
  }

  /** One more image adds (or refreshes) one empty configuration. */
  lemma InitialConfigsStep(images: seq<ImageFile>, i: nat)
    requires i < |images|
    ensures InitialConfigs(images[..i + 1])
      == InitialConfigs(images[..i]).Put(images[i].id, ImageConfig(images[i].id, [], JPG))
  {
    assert images[..i + 1][..i] == images[..i];
  }

  /** Fresh configurations are empty, hence within budget. */
  lemma InitialConfigsWithinBudget(images: seq<ImageFile>)
    ensures ConfigsWithinBudget(InitialConfigs(images))
  {
    var c := InitialConfigs(images);
    forall k | k in c.entries ensures c.entries[k].imageId == k && WithinBudget(c.entries[k].transformations) {
      assert c.entries[k] == ImageConfig(k, [], JPG);
    }
  }

  /** The `forEach` of `initializeIndividualConfigs`: one `set` per image, in order. */
  method BuildInitialConfigs(images: seq<ImageFile>) returns (configs: OrderedMap<ImageConfig>)
    ensures configs == InitialConfigs(images)
  {
    configs := Empty();
    var i := 0;
    while i < |images|
      invariant 0 <= i <= |images|
      invariant configs == InitialConfigs(images[..i])
    {
      InitialConfigsStep(images, i);
      configs := configs.Put(images[i].id, ImageConfig(images[i].id, [], JPG));
      i := i + 1;
    }
    assert images[..i] == images;
  }

  /** Freshly initialised, every selected image is listed as missing its configuration. */
  lemma {:induction false} InitialConfigsAllIncomplete(selected: seq<ImageFile>, prefix: seq<ImageFile>)
    requires forall x :: x in selected ==> x in prefix
    ensures Incomplete(selected, InitialConfigs(prefix)) == selected
  {
    if selected != [] {
      var c := InitialConfigs(prefix);
      var head := selected[0];
      assert head in prefix;
      var j :| 0 <= j < |prefix| && prefix[j] == head;
      assert ImageIds(prefix)[j] == head.id;
      assert c.entries[head.id] == ImageConfig(head.id, [], JPG);
      assert ConfigTransformations(c, head.id) == [];
      InitialConfigsAllIncomplete(selected[1..], prefix);
      assert Incomplete(selected, c) == [head] + Incomplete(selected[1..], c);
      assert selected == [head] + selected[1..];
    }
  }

  /**
   * Right after initialisation in individual mode the page is blocked exactly when some image is
   * selected, and its message then names every selected image.
   */
  lemma InitialConfigsBlock(selected: seq<ImageFile>)
    ensures AnyEmpty(InitialConfigs(selected).Values()) <==> selected != []
    ensures Message(false, selected, InitialConfigs(selected))
      == MissingConfigsPrefix + Join(ImageNames(selected), ", ")
  {
    InitialConfigsAllIncomplete(selected, selected);
    ValidationAgrees(selected, InitialConfigs(selected));
  }

  /** The request `applyTransformations` sends. */
  function Request(batch: bool, selection: seq<Transformation>, format: OutputFormat,
                   configs: OrderedMap<ImageConfig>, selected: seq<ImageFile>): TransformRequest
    requires configs.Valid()
  {
    if batch then TransformRequest(true, Some(selection), Some(format), None, ImageIds(selected))
    else TransformRequest(false, None, None, Some(configs.Values()), ImageIds(selected))
  }

  /**
   * A request the page lets through names the selected images and is complete: in batch mode one to
   * four transformations and a format, in individual mode one to four transformations in every
   * configuration. The service's progress then counts one step for a batch and one per configuration.
   */
  lemma RequestWhenProceeding(batch: bool, selection: seq<Transformation>, format: OutputFormat,
                              configs: OrderedMap<ImageConfig>, selected: seq<ImageFile>)
    requires configs.Valid() && !HasErrors(batch, selection, configs)
    requires WithinBudget(selection) && ConfigsWithinBudget(configs)
    ensures Request(batch, selection, format, configs, selected).images == ImageIds(selected)
    ensures Request(batch, selection, format, configs, selected).applyToAll == batch
    ensures batch ==>
      && Request(batch, selection, format, configs, selected).transformations == Some(selection)
      && 1 <= |selection| <= 4
      && Request(batch, selection, format, configs, selected).outputFormat == Some(format)
    ensures !batch ==>
      && Request(batch, selection, format, configs, selected).imageConfigs == Some(configs.Values())
      && forall c :: c in Request(batch, selection, format, configs, selected).imageConfigs.value ==>
           1 <= |c.transformations| <= 4
    ensures StartProgress(Request(batch, selection, format, configs, selected)).total
      == if batch then 1 else |configs.keys|
  {
    if !batch {
      var vs := configs.Values();
      forall c | c in vs ensures 1 <= |c.transformations| <= 4 {
        var i :| 0 <= i < |vs| && vs[i] == c;
        assert configs.keys[i] in configs.entries;
      }
    }
  }

  /**
   * Everything `updateParam` needs about the list it rewrites: the written parameter of a selected
   * transformation reads back, every other parameter reads as before, the selection and its budget
   * are unchanged, and an unselected id changes nothing.
   */
  lemma WithParamFacts(ts: seq<Transformation>, id: string, name: string, value: Json)
    ensures HasTransformation(ts, id) ==> GetParam(WithParam(ts, id, name, value), id, name) == Some(value)
    ensures forall x, other :: x != id || other != name ==>
      GetParam(WithParam(ts, id, name, value), x, other) == GetParam(ts, x, other)
    ensures WithinBudget(ts) ==> WithinBudget(WithParam(ts, id, name, value))
    ensures !HasTransformation(ts, id) ==> WithParam(ts, id, name, value) == ts
  {
    WithParamKeepsSelection(ts, id, name, value);
    if HasTransformation(ts, id) {
      ParamReadBack(ts, id, name, value);
    } else {
      WithParamAbsent(ts, id, name, value);
    }
    forall x, other | x != id || other != name
      ensures GetParam(WithParam(ts, id, name, value), x, other) == GetParam(ts, x, other)
    {
      ParamOthersKept(ts, id, name, value, x, other);
    }
  }

  /** `i` is the first position of an image with the id. */
  predicate FirstImageWithId(images: seq<ImageFile>, id: string, i: int) {
    0 <= i < |images| && images[i].id == id && forall j :: 0 <= j < i ==> images[j].id != id
  }

  /** `selectedImages().find(img => img.id === id)`: the first image with the id. */
  function FindImage(images: seq<ImageFile>, id: string): (r: Option<ImageFile>)
    ensures r.Some? ==> exists i :: FirstImageWithId(images, id, i) && images[i] == r.value
    ensures r.None? ==> forall i :: 0 <= i < |images| ==> images[i].id != id
  {
    if images == [] then None
    else if images[0].id == id then
      assert FirstImageWithId(images, id, 0);
      Some(images[0])
    else
      var r := FindImage(images[1..], id);
      assert r.Some? ==> exists i :: FirstImageWithId(images, id, i) && images[i] == r.value by {
        if r.Some? {
          var i :| FirstImageWithId(images[1..], id, i) && images[1..][i] == r.value;
          forall j | 0 <= j < i + 1 ensures images[j].id != id {
            if j > 0 { assert images[j] == images[1..][j - 1]; }
          }
          assert FirstImageWithId(images, id, i + 1);
        }
      }
      r
  }

  /** `currentImageName`: the current image's name, or a prompt when there is none or it is empty. */
  function CurrentImageName(selected: seq<ImageFile>, currentId: string): (r: string)
    ensures r != NoImageName ==> exists i :: 0 <= i < |selected| && selected[i].id == currentId && selected[i].name == r
    ensures (forall i :: 0 <= i < |selected| ==> selected[i].id != currentId) ==> r == NoImageName
    ensures FindImage(selected, currentId).Some? && FindImage(selected, currentId).value.name != "" ==>
      r == FindImage(selected, currentId).value.name
    ensures FindImage(selected, currentId).Some? && FindImage(selected, currentId).value.name == "" ==>
      r == NoImageName
  {
    match FindImage(selected, currentId)
    case None => NoImageName
    case Some(img) => if img.name == "" then NoImageName else img.name
  }

  // ---------------------------------------------------------------------------------------------
  // The component
  // ---------------------------------------------------------------------------------------------

  class TransformComponent {
    const imageService: ImageService
    var selectedTransformations: seq<Transformation>
    var selectedFormat: OutputFormat
    var currentImageId: string
    var individualConfigs: OrderedMap<ImageConfig>
    /** The route the component last asked the router for. */
    var lastNavigation: Option<string>

    /** The selections stay within budget because the only way to grow them is a checked toggle. */
    ghost predicate Valid()
      reads this, imageService
    {
      && imageService.Valid()
      && individualConfigs.Valid()
      && WithinBudget(selectedTransformations)
      && ConfigsWithinBudget(individualConfigs)
    }

    constructor (service: ImageService)
      requires service.Valid()
      ensures Valid() && imageService == service
      ensures selectedTransformations == [] && selectedFormat == JPG && currentImageId == ""
      ensures individualConfigs == Empty() && lastNavigation == None
    {
      imageService := service;
      selectedTransformations := [];
      selectedFormat := JPG;
      currentImageId := "";
      individualConfigs := Empty();
      lastNavigation := None;
    }

    function IsBatchMode(): bool
      reads imageService
    {
      IsBatch(imageService.transformationConfig)
    }

    function SelectedImages(): seq<ImageFile>
      reads imageService
    {
      SelectedOnly(imageService.selectedImages)
    }

    function CurrentTransformations(): seq<Transformation>
      reads this, imageService
    {
      CurrentList(IsBatchMode(), selectedTransformations, individualConfigs, currentImageId)
    }

    /** `currentTransformationsCount`. */
    function CurrentTransformationsCount(): nat
      reads this, imageService
    {
      SlotsUsed(CurrentTransformations())
    }

    /** `canAddMoreTransformations`. */
    predicate CanAddMoreTransformations()
      reads this, imageService
    {
      CanAdd(CurrentTransformations())
    }

    /** `isSelected`. */
    predicate IsSelected(transformationId: string)
      reads this, imageService
    {
      HasTransformation(CurrentTransformations(), transformationId)
    }

    predicate HasValidationErrors()
      reads this, imageService
      requires individualConfigs.Valid()
    {
      HasErrors(IsBatchMode(), selectedTransformations, individualConfigs)
    }

    function ValidationMessage(): string
      reads this, imageService
    {
      Message(IsBatchMode(), SelectedImages(), individualConfigs)
    }

    predicate CanProceed()
      reads this, imageService
      requires individualConfigs.Valid()
    {
      !HasValidationErrors()
    }

    function CurrentName(): string
      reads this, imageService
    {
      CurrentImageName(SelectedImages(), currentImageId)
    }

    /** `getParam`. */
    function Param(transformationId: string, paramName: string): Option<Json>
      reads this, imageService
    {
      GetParam(CurrentTransformations(), transformationId, paramName)
    }

    /** `getImageTransformationsCount`. */
    function ImageTransformationsCount(imageId: string): nat
      reads this
    {
      SlotsUsed(ConfigTransformations(individualConfigs, imageId))
    }

    /** `getImageTransformationNames`. */
    function ImageTransformationNames(imageId: string): string
      reads this
    {
      Join(Names(ConfigTransformations(individualConfigs, imageId)), ", ")
    }

    /**
     * The request `applyTransformations` builds: the selected images' ids, and either the batch
     * selection with the format or every configuration in the map's order.
     */
    function BuildRequest(): (r: TransformRequest)
      reads this, imageService
      requires individualConfigs.Valid()
      ensures r.applyToAll == IsBatchMode() && r.images == ImageIds(SelectedImages())
      ensures IsBatchMode() ==> && r.transformations == Some(selectedTransformations)
                                && r.outputFormat == Some(selectedFormat) && r.imageConfigs == None
      ensures !IsBatchMode() ==> && r.imageConfigs == Some(individualConfigs.Values())
                                 && r.transformations == None && r.outputFormat == None
    {
      Request(IsBatchMode(), selectedTransformations, selectedFormat, individualConfigs, SelectedImages())
    }

    /**
     * `ngOnInit`: in individual mode with images selected, the first one becomes current and every
     * selected image gets an empty configuration, which blocks the page until each is configured.
     */
    method OnInit()
      requires Valid()
      modifies this`currentImageId, this`individualConfigs
      ensures Valid()
      ensures !IsBatchMode() && |SelectedImages()| > 0 ==>
        && currentImageId == SelectedImages()[0].id
        && individualConfigs == InitialConfigs(SelectedImages())
        && HasValidationErrors()
        && ValidationMessage() == MissingConfigsPrefix + Join(ImageNames(SelectedImages()), ", ")
      ensures !(!IsBatchMode() && |SelectedImages()| > 0) ==>
        currentImageId == old(currentImageId) && individualConfigs == old(individualConfigs)
    {
      if !IsBatchMode() && |SelectedImages()| > 0 {
        currentImageId := SelectedImages()[0].id;
        InitializeIndividualConfigs();
        InitialConfigsBlock(SelectedImages());
      }
    }

    /** `initializeIndividualConfigs`: one `set` per selected image, in order. */
    method InitializeIndividualConfigs()
      requires Valid()
      modifies this`individualConfigs
      ensures Valid()
      ensures individualConfigs == InitialConfigs(SelectedImages())
    {
      var configs := BuildInitialConfigs(SelectedImages());
      InitialConfigsWithinBudget(SelectedImages());
      individualConfigs := configs;
    }

    method SetCurrentImage(imageId: string)
      modifies this`currentImageId
      ensures currentImageId == imageId
    {
      currentImageId := imageId;
    }

    /**
     * `toggleTransformation`: toggles in the batch selection or in the current image's configuration;
     * with no configuration for the current image nothing changes.
     */
    method ToggleTransformation(t: Transformation)
      requires Valid()
      modifies this`selectedTransformations, this`individualConfigs
      ensures Valid()
      ensures IsBatchMode() ==>
        selectedTransformations == Toggled(old(selectedTransformations), t) && individualConfigs == old(individualConfigs)
      ensures !IsBatchMode() ==>
        && selectedTransformations == old(selectedTransformations)
        && individualConfigs == WithTransformations(old(individualConfigs), currentImageId,
             Toggled(old(CurrentTransformations()), t))
      ensures IsBatchMode() || currentImageId in individualConfigs.entries ==>
        CurrentTransformations() == Toggled(old(CurrentTransformations()), t)
    {
      var current := CurrentTransformations();
      assert WithinBudget(current);
      if IsBatchMode() {
        selectedTransformations := Toggled(current, t);
      } else {
        individualConfigs := WithTransformations(individualConfigs, currentImageId, Toggled(current, t));
      }
    }

    /** `removeTransformation`: afterwards the id is no longer selected. */
    method RemoveTransformation(transformationId: string)
      requires Valid()
      modifies this`selectedTransformations, this`individualConfigs
      ensures Valid()
      ensures IsBatchMode() ==>
        && selectedTransformations == WithoutId(old(selectedTransformations), transformationId)
        && individualConfigs == old(individualConfigs)
      ensures !IsBatchMode() ==>
        && selectedTransformations == old(selectedTransformations)
        && individualConfigs == WithTransformations(old(individualConfigs), currentImageId,
             WithoutId(old(CurrentTransformations()), transformationId))
      ensures !IsSelected(transformationId)
    {
      var current := CurrentTransformations();
      assert WithinBudget(current);
      WithoutIdUnique(current, transformationId);
      if IsBatchMode() {
        selectedTransformations := WithoutId(current, transformationId);
      } else {
        individualConfigs := WithTransformations(individualConfigs, currentImageId, WithoutId(current, transformationId));
      }
    }

    /**
     * `updateOutputFormat`: the page's format changes, and in individual mode every configuration
     * takes it too, with the keys and the transformations untouched.
     */
    method UpdateOutputFormat(format: OutputFormat)
      requires Valid()
      modifies this`selectedFormat, this`individualConfigs
      ensures Valid()
      ensures selectedFormat == format
      ensures IsBatchMode() ==> individualConfigs == old(individualConfigs)
      ensures !IsBatchMode() ==>
        && individualConfigs.keys == old(individualConfigs.keys)
        && individualConfigs.entries.Keys == old(individualConfigs.entries.Keys)
        && forall k :: k in old(individualConfigs.entries) ==>
             individualConfigs.entries[k] == old(individualConfigs.entries[k]).(outputFormat := format)
    {
      selectedFormat := format;
      if !IsBatchMode() {
        var configs := individualConfigs;
        var keys := configs.keys;
        var i := 0;
        while i < |keys|
          invariant 0 <= i <= |keys|
          invariant configs.Valid() && configs.keys == keys
          invariant configs.entries.Keys == old(individualConfigs.entries.Keys)
          invariant forall j :: 0 <= j < i ==>
            configs.entries[keys[j]] == old(individualConfigs.entries[keys[j]]).(outputFormat := format)
          invariant forall j :: i <= j < |keys| ==> configs.entries[keys[j]] == old(individualConfigs.entries[keys[j]])
        {
          var k := keys[i];
          configs := configs.Put(k, configs.entries[k].(outputFormat := format));
          i := i + 1;
        }
        forall k | k in old(individualConfigs.entries)
          ensures configs.entries[k] == old(individualConfigs.entries[k]).(outputFormat := format)
        {
          var j :| 0 <= j < |keys| && keys[j] == k;
        }
        individualConfigs := configs;
      }
    }

    /**
     * `updateParam`, with the value the input event carries: a selected transformation reads the new
     * value back, every other parameter reads as before, and the selection itself does not change.
     */
    method UpdateParam(transformationId: string, paramName: string, value: Json)
      requires Valid()
      modifies this`selectedTransformations, this`individualConfigs
      ensures Valid()
      ensures IsBatchMode() ==>
        && selectedTransformations == WithParam(old(selectedTransformations), transformationId, paramName, value)
        && individualConfigs == old(individualConfigs)
      ensures !IsBatchMode() ==>
        && selectedTransformations == old(selectedTransformations)
        && individualConfigs == WithTransformations(old(individualConfigs), currentImageId,
             WithParam(old(CurrentTransformations()), transformationId, paramName, value))
      ensures old(IsSelected(transformationId)) ==> Param(transformationId, paramName) == Some(value)
      ensures forall x, other :: x != transformationId || other != paramName ==>
        Param(x, other) == old(Param(x, other))
    {
      var current := CurrentTransformations();
      assert WithinBudget(current);
      var updated := WithParam(current, transformationId, paramName, value);
      WithParamFacts(current, transformationId, paramName, value);
      if IsBatchMode() {
        selectedTransformations := updated;
      } else {
        individualConfigs := WithTransformations(individualConfigs, currentImageId, updated);
      }
      assert CurrentTransformations() == updated;
    }

    /**
     * `applyTransformations`: a blocked page sends nothing. Otherwise the request built from the page
     * is sent (`sent`); a batch answer leads to the download page, anything else leaves the failure
     * message on the service.
     */
    method ApplyTransformations(ticks: nat, response: Response<BatchResult>)
      returns (sent: Option<TransformRequest>, result: Option<BatchResult>)
      requires Valid()
      modifies this`lastNavigation, imageService
      ensures Valid()
      ensures !old(CanProceed()) ==>
        sent == None && result == None && unchanged(imageService) && lastNavigation == old(lastNavigation)
      ensures old(CanProceed()) ==>
        && sent == Some(old(BuildRequest()))
        && result == (if response.Delivered? then response.body else None)
      ensures old(CanProceed()) && result.Some? ==>
        && lastNavigation == Some(DownloadRoute)
        && imageService.currentBatch == result && imageService.HasProcessedBatch()
      ensures old(CanProceed()) && result.None? ==>
        imageService.errorMessage == TransformFailedMessage && lastNavigation == old(lastNavigation)
      ensures old(CanProceed()) ==>
        && imageService.selectedImages == old(imageService.selectedImages)
        && imageService.transformationConfig == old(imageService.transformationConfig)
        && imageService.transformationMode == old(imageService.transformationMode)
        && !imageService.isLoading
      ensures old(CanProceed()) && result.Some? ==> imageService.progress == CompletedProgress(result.value.imageCount)
      ensures old(CanProceed()) && response.Delivered? && response.body.None? ==>
        && imageService.progress == Ticks(StartProgress(old(BuildRequest())), ticks)
        && imageService.currentBatch == old(imageService.currentBatch)
      ensures old(CanProceed()) && response.Threw? ==>
        && imageService.progress == Ticks(StartProgress(old(BuildRequest())), ticks).(status := Error)
        && imageService.currentBatch == old(imageService.currentBatch)
    {
      if !CanProceed() {
        return None, None;
      }
      var request := BuildRequest();
      sent := Some(request);
      result := imageService.ApplyTransformations(request, ticks, response);
      if result.Some? {
        lastNavigation := Some(DownloadRoute);
      } else {
        imageService.errorMessage := TransformFailedMessage;
      }
    }

    /** `goBack`. */
    method GoBack()
      modifies this`lastNavigation
      ensures lastNavigation == Some(UploadRoute)
    {
      lastNavigation := Some(UploadRoute);
    }
  }
}
