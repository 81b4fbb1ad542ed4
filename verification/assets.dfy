/**
 * The asset database as the core sees it, and the per-asset record the
 * analysis windows list. Every editor query is an injected value of `Project`.
 */
module Assets {
  import opened Common
  import opened Strings

  type Path = string

  /**
   * `AssetDatabase.GetMainAssetTypeAtPath`: `Unknown` is the null type, `Other`
   * any type the core does not test for, carrying its full name. An `Other`
   * never carries the full name of one of the five named types: those types
   * are always given by their own constructor, so the type tests and
   * `FullName` agree.
   */
  datatype AssetType =
    | Unknown
    | MonoScript
    | DefaultAsset
    | SceneAsset
    | Texture2D
    | SpriteAtlas
    | Other(fullName: string)

  const EnginePrefix: string := "UnityEngine."
  const EditorPrefix: string := "UnityEditor."
  const UnknownTypeName: string := "Unknown Type"
  const AssetsFolder: string := "Assets/"

  /** `Type.ToString()`: the namespace-qualified name. */
  function FullName(t: AssetType): string
    requires !t.Unknown?
  {
    match t
    case MonoScript => EditorPrefix + "MonoScript"
    case DefaultAsset => EditorPrefix + "DefaultAsset"
    case SceneAsset => EditorPrefix + "SceneAsset"
    case Texture2D => EnginePrefix + "Texture2D"
    case SpriteAtlas => EnginePrefix + "U2D.SpriteAtlas"
    case Other(name) => name
  }

  /** `AssetData.TypeName`: the full name with both Unity namespaces removed. */
  function TypeName(t: AssetType): string {
    if t.Unknown? then UnknownTypeName
    else RemoveAll(RemoveAll(FullName(t), EnginePrefix), EditorPrefix)
  }

  /** `AssetData.ShortPath`: the path with every "Assets/" removed. */
  function ShortPath(path: Path): (s: string)
    ensures |s| <= |path|
    ensures !Contains(path, AssetsFolder) ==> s == path
    ensures Contains(path, AssetsFolder) ==> |s| <= |path| - |AssetsFolder|
  {
    RemoveAll(path, AssetsFolder)
  }

  /** The five named types are listed under their names without the Unity namespace. */
  lemma KnownTypeName(t: AssetType)
    requires !t.Unknown? && !t.Other?
    ensures TypeName(t) == match t
      case MonoScript => "MonoScript"
      case DefaultAsset => "DefaultAsset"
      case SceneAsset => "SceneAsset"
      case Texture2D => "Texture2D"
      case SpriteAtlas => "U2D.SpriteAtlas"
  {
    match t
    case MonoScript => EditorNamed(t, "MonoScript");
    case DefaultAsset => EditorNamed(t, "DefaultAsset");
    case SceneAsset => EditorNamed(t, "SceneAsset");
    case Texture2D => EngineNamed(t, "Texture2D");
    case SpriteAtlas => EngineNamed(t, "U2D.SpriteAtlas");
  }

  /** A name without a 'y' holds neither Unity namespace. */
  lemma NoNamespace(name: string)
    requires 'y' !in name
    ensures !Contains(name, EnginePrefix) && !Contains(name, EditorPrefix)
  {
    assert EnginePrefix[4] == 'y' && EditorPrefix[4] == 'y';
    MissingCharDoesNotContain(name, EnginePrefix, 4);
    MissingCharDoesNotContain(name, EditorPrefix, 4);
  }

  /** A named type in the `UnityEditor` namespace is listed under its bare name. */
  lemma EditorNamed(t: AssetType, name: string)
    requires !t.Unknown? && FullName(t) == EditorPrefix + name && 'y' !in name
    ensures TypeName(t) == name
  {
    NoNamespace(name);
    EditorTypeName(name);
    assert TypeName(t) == TypeName(Other(EditorPrefix + name));
  }

  /** A named type in the `UnityEngine` namespace is listed under its bare name. */
  lemma EngineNamed(t: AssetType, name: string)
    requires !t.Unknown? && FullName(t) == EnginePrefix + name && 'y' !in name
    ensures TypeName(t) == name
  {
    NoNamespace(name);
    EngineTypeName(name);
    assert TypeName(t) == TypeName(Other(EnginePrefix + name));
  }

  /** A type `UnityEngine.N` is listed under the bare name N. */
  lemma EngineTypeName(name: string)
    requires !Contains(name, EnginePrefix) && !Contains(name, EditorPrefix)
    ensures TypeName(Other(EnginePrefix + name)) == name
  {
    RemoveAllLeading(EnginePrefix, name);
  }

  /** A type `UnityEditor.N` is listed under the bare name N. */
  lemma EditorTypeName(name: string)
    requires !Contains(name, EnginePrefix) && !Contains(name, EditorPrefix)
    ensures TypeName(Other(EditorPrefix + name)) == name
  {
    EditorNameLacksEnginePrefix(name);
    assert RemoveAll(EditorPrefix + name, EnginePrefix) == EditorPrefix + name;
    RemoveAllLeading(EditorPrefix, name);
  }

  /** Prefixing "UnityEditor." creates no occurrence of "UnityEngine.". */
  lemma EditorNameLacksEnginePrefix(name: string)
    requires !Contains(name, EnginePrefix)
    ensures !Contains(EditorPrefix + name, EnginePrefix)
  {
    var full := EditorPrefix + name;
    assert !StartsWith(full, EnginePrefix) by {
      assert full[6] == 'd' != EnginePrefix[6];
    }
    if Contains(full, EnginePrefix) {
      assert EnginePrefix[0] !in EditorPrefix[1..];
      ContainsPastPrefix(EditorPrefix, name, EnginePrefix);
    }
  }

  /** A project path "Assets/rest" is shown as "rest" when "rest" has no further "Assets/". */
  lemma ShortPathOfProjectAsset(rest: string)
    requires !Contains(rest, AssetsFolder)
    ensures ShortPath(AssetsFolder + rest) == rest
  {
    RemoveAllLeading(AssetsFolder, rest);
  }

  /**
   * Everything the editor answers about the project during one analysis:
   * the asset path list, forward dependencies (`recursive` selects the
   * transitive set), main types, registered build scenes, player icons
   * aggregated over all build targets, the addressable flag and file sizes.
   */
  datatype Project = Project(
    paths: seq<Path>,
    dependencies: (Path, bool) -> seq<Path>,
    typeOf: Path -> AssetType,
    buildScenes: set<Path>,
    icons: set<Path>,
    isAddressable: Path -> bool,
    sizeOf: Path -> int)

  /** One row of the analysis result. */
  datatype AssetData = AssetData(
    path: Path,
    shortPath: string,
    typeName: string,
    validType: bool,
    bytesSize: int,
    isAddressable: bool,
    referencesCount: nat,
    warning: string)

  /** `AssetData.Create`: derives the row of `path` from the project. */
  function CreateAssetData(project: Project, path: Path, referencesCount: nat, warning: string): (r: AssetData)
    ensures r.path == path && r.shortPath == ShortPath(path)
    ensures r.validType <==> !project.typeOf(path).Unknown?
    ensures !r.validType ==> r.typeName == UnknownTypeName
    ensures r.validType ==> r.typeName == RemoveAll(RemoveAll(FullName(project.typeOf(path)), EnginePrefix), EditorPrefix)
    ensures r.bytesSize == project.sizeOf(path) && r.isAddressable == project.isAddressable(path)
    ensures r.referencesCount == referencesCount && r.warning == warning
  {
    var t := project.typeOf(path);
    AssetData(path, ShortPath(path), TypeName(t), !t.Unknown?, project.sizeOf(path),
              project.isAddressable(path), referencesCount, warning)
  }
}
