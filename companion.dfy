/**
 * One entry of the companion catalog as the constructor of `companion` builds
 * it from its JSON object, and `hasTexture`. The JSON object is modelled as
 * its string-valued members plus the (optional) four floats of
 * "textureColor"; the Vulkan uploads that later fill the render mesh and
 * texture are not part of this model.
 */
module Companion {
  import W = Wrappers
  import opened Packets

  datatype ModelType = Obj
  datatype TextureType = None | Png | Color

  /** glm::vec4 of the colour, each float kept as its 32-bit pattern. */
  datatype Rgba = Rgba(r: F32, g: F32, b: F32, a: F32)

  /** std::variant<std::string, glm::vec4>; a default-constructed one holds the empty string. */
  datatype TextureArgument = File(path: string) | Vec4(color: Rgba)

  /** The JSON object: its string members, and "textureColor" when it holds r, g, b and a. */
  datatype Config = Config(strings: map<string, string>, textureColor: W.Option<Rgba>)

  /** The nlohmann::json type_error each missing member raises, in the order the constructor reads them. */
  datatype ConfigError = MissingId | MissingModelFile | MissingTextureFile | MissingTextureColor

  /**
   * A constructed companion. modelType is None when "modelType" is not
   * "obj": the member is then left uninitialised.
   */
  datatype Companion = Companion(
    id: string,
    modelType: W.Option<ModelType>,
    modelFile: string,
    textureType: TextureType,
    textureArgument: TextureArgument)

  /** The configuration string naming each texture type. */
  function TextureTypeName(t: TextureType): (s: string)
    ensures |s| > 0
  {
    match t
    case None => "none"
    case Png => "png"
    case Color => "color"
  }

  /** The texture type a configuration string selects; no enumerant for any other string. */
  function ParseTextureType(s: string): (r: W.Option<TextureType>)
  {
    if s == "none" then W.Some(None)
    else if s == "png" then W.Some(Png)
    else if s == "color" then W.Some(Color)
    else W.None
  }

  /** Names and enumerants correspond one to one. */
  lemma TextureTypeNames(t: TextureType, s: string)
    ensures ParseTextureType(TextureTypeName(t)) == W.Some(t)
    ensures ParseTextureType(s) == W.Some(t) <==> s == TextureTypeName(t)
  {
  }

  function ParseModelType(s: string): (r: W.Option<ModelType>)
    ensures r.Some? <==> s == "obj"
  {
    if s == "obj" then W.Some(Obj) else W.None
  }

  /** The value of a string member, if present. */
  function Member(cfg: Config, key: string): W.Option<string>
  {
    if key in cfg.strings then W.Some(cfg.strings[key]) else W.None
  }

  /** The texture type the object selects, if "textureType" names one. */
  function TextureTypeOf(cfg: Config): W.Option<TextureType>
  {
    match Member(cfg, "textureType")
    case Some(s) => ParseTextureType(s)
    case None => W.None
  }

  /** filebase + "/" + name. */
  function UnderBase(filebase: string, name: string): (p: string)
    ensures |p| == |filebase| + 1 + |name|
    ensures p[..|filebase|] == filebase && p[|filebase|] == '/' && p[|filebase| + 1..] == name
  {
    filebase + "/" + name
  }

  /** The texture argument agrees with the texture type. */
  predicate Consistent(c: Companion)
  {
    match c.textureType
    case None => c.textureArgument == File("")
    case Png => c.textureArgument.File?
    case Color => c.textureArgument.Vec4?
  }

  /**
   * `companion::companion(json, filebase)`. The texture type is compared
   * against Png and Color after the three string tests, so an object whose
   * "textureType" names none of them reads an uninitialised member once
   * "id" and "modelFile" are both present: the constructor requires a known
   * texture type only then (without either string it throws first).
   */
  function FromConfig(cfg: Config, filebase: string): (r: W.Result<Companion, ConfigError>)
    requires "id" in cfg.strings && "modelFile" in cfg.strings ==> TextureTypeOf(cfg).Some?
    ensures r.Ok? <==>
              && "id" in cfg.strings && "modelFile" in cfg.strings
              && (TextureTypeOf(cfg) == W.Some(Png) ==> "textureFile" in cfg.strings)
              && (TextureTypeOf(cfg) == W.Some(Color) ==> cfg.textureColor.Some?)
    ensures r == W.Err(MissingId) <==> "id" !in cfg.strings
    ensures r == W.Err(MissingModelFile) <==> "id" in cfg.strings && "modelFile" !in cfg.strings
    ensures r.Ok? ==>
              && r.value.id == cfg.strings["id"]
              && r.value.textureType == TextureTypeOf(cfg).value
              && (r.value.modelType == W.Some(Obj) <==> Member(cfg, "modelType") == W.Some("obj"))
              && r.value.modelFile == UnderBase(filebase, cfg.strings["modelFile"])
              && Consistent(r.value)
  {
    if "id" !in cfg.strings then W.Err(MissingId)
    else
      var modelType := match Member(cfg, "modelType")
        case Some(s) => ParseModelType(s)
        case None => W.None;
      if "modelFile" !in cfg.strings then W.Err(MissingModelFile)
      else
        var textureType := TextureTypeOf(cfg).value;
        var argument :=
          if textureType == Png then
            if "textureFile" in cfg.strings then W.Ok(File(UnderBase(filebase, cfg.strings["textureFile"])))
            else W.Err(MissingTextureFile)
          else if textureType == Color then
            if cfg.textureColor.Some? then W.Ok(Vec4(cfg.textureColor.value))
            else W.Err(MissingTextureColor)
          else W.Ok(File(""));
        match argument
        case Ok(a) => W.Ok(Companion(cfg.strings["id"], modelType, UnderBase(filebase, cfg.strings["modelFile"]), textureType, a))
        case Err(e) => W.Err(e)
  }

  /** `hasTexture`: every texture type but None has a texture. */
  function HasTexture(c: Companion): (b: bool)
  {
    c.textureType != None
  }

  /**
   * A constructed companion has a texture exactly when its object asks for a
   * png or a colour, and then it carries the file under filebase or the colour.
   */
  lemma HasTextureFromConfig(cfg: Config, filebase: string)
    requires "id" in cfg.strings && "modelFile" in cfg.strings ==> TextureTypeOf(cfg).Some?
    requires FromConfig(cfg, filebase).Ok?
    ensures var c := FromConfig(cfg, filebase).value;
            && (HasTexture(c) <==> Member(cfg, "textureType") in {W.Some("png"), W.Some("color")})
            && (!HasTexture(c) ==> c.textureArgument == File(""))
            && (Member(cfg, "textureType") == W.Some("png") ==>
                  c.textureArgument == File(UnderBase(filebase, cfg.strings["textureFile"])))
            && (Member(cfg, "textureType") == W.Some("color") ==> c.textureArgument == Vec4(cfg.textureColor.value))
  {
    var c := FromConfig(cfg, filebase).value;
    var s := Member(cfg, "textureType").value;
    TextureTypeNames(c.textureType, s);
  }
}
