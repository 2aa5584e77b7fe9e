/**
 The catalog builder (`getProperties`): the class names that are scanned, and
 for each of them the layout properties it adds to its UIKit base class.
 The runtime's class list and `NSClassFromString` are inputs here.
 */
module Catalog {
  import opened Text

  /** A layout expression type: the text `\(type)` prints, and whether the type
      can be written to the generated files. */
  datatype Desc = Desc(description: string, available: bool)

  function Show(d: Desc): string
  {
    d.description
  }

  /** Which UIKit base class a class descends from, if either. */
  datatype Category = View | Controller | Other

  /** An entry of the runtime's class list. */
  datatype LoadedClass = LoadedClass(name: string, hasSuperclass: bool, kind: Category)

  /** What a class name resolves to: its category and its `expressionTypes`. */
  datatype ClassInfo = ClassInfo(kind: Category, expressionTypes: PropertyMap)

  type PropertyMap = map<string, Desc>

  /** Class name to resolved class; a name that is absent does not resolve. */
  type Registry = map<string, ClassInfo>

  /** The result of `getProperties`: class name to its own layout properties. */
  type Properties = map<string, PropertyMap>

  /** Prefixes a scanned class name must start with (one of them). */
  const Whitelist: seq<string> := [
    "AVPlayerViewController",
    "AVPictureInPictureViewController",
    "MKOverlay",
    "MKMapView",
    "GLK",
    "SCNView",
    "SKView",
    "UI",
    "WKWebView"
  ]

  /** Prefixes that exclude a class name even when an allowed prefix matches. */
  const Blacklist: seq<string> := [
    "AVPlayerViewControllerContentView",
    "MKOverlayContainer",
    "UIAccessibility",
    "UIActionSheet",
    "UIActivityGroupViewController",
    "UIActivityViewPopoverBackgroundView",
    "UIAlertView",
    "UIApplication",
    "UIAutocorrect",
    "UIAutoRotatingWindow",
    "UIButtonLabel",
    "UICallout",
    "UICheckeredPatternView",
    "UIClassic",
    "UICollectionViewControllerWrapperView",
    "UICollectionViewTable",
    "UICompatibilityInputViewController",
    "UICoverSheetButton",
    "UIDateLabel",
    "UIDatePickerContentView",
    "UIDatePickerWeekMonthDayView",
    "UIDebugging",
    "UIDefaultKeyboardInput",
    "UIDictation",
    "UIDimmingView",
    "UIDocument",
    "UIDOM",
    "UIDropShadowView",
    "UIDynamicCaret",
    "UIFieldEditor",
    "UIGroupTable",
    "UIIndexBar",
    "UIInputS",
    "UIInputWindow",
    "UIInsertControl",
    "UIInterface",
    "UIKB",
    "UIKeyCommand",
    "UIKeyboard",
    "UILayoutContainerView",
    "UIMainPrinterUtilityCell",
    "UIMore",
    "UIMorphingLabel",
    "UIMovieScrubber",
    "UIMultiColumnViewController",
    "UINavigationBarBackIndicatorView",
    "UINavigationButton",
    "UINavigationTransitionView",
    "UINotesTableView",
    "UIPageController",
    "UIPasscodeField",
    "UIPageControllerScrollView",
    "UIPanel",
    "UIPDF",
    "UIPeripheral",
    "UIPickerContentView",
    "UIPickerColumnView",
    "UIPickerTableView",
    "UIPopoverB",
    "UIPrint",
    "UIProgressHUD",
    "UIProgressIndicator",
    "UIRecent",
    "UIReferenceLibraryViewController",
    "UIRemoteKeyboardWindow",
    "UIRemoveControl",
    "UIRoundedRect",
    "UISegment",
    "UISearch",
    "UISelection",
    "UIShadow",
    "UISnapshot",
    "UISplitAndMaskView",
    "UISpringBoard",
    "UISoftware",
    "UIStatusBar",
    "UISegment",
    "UISwappableImageView",
    "UISwipe",
    "UISwitch",
    "UISystemInputViewController",
    "UITabBar",
    "UITableViewBackground",
    "UITableViewCell",
    "UITableViewCollectionCell",
    "UITableViewCountView",
    "UITableViewIndex",
    "UITableViewLabel",
    "UITableViewWrapperView",
    "UIText",
    "UIToolbar",
    "UITransitionView",
    "UIURLDragPreviewView",
    "UIVideoEditorController",
    "UIViewControllerWrapperView",
    "UIWeb",
    "UIWindow",
    "UIWK",
    "UIZoomViewController"
  ]

  /** Names scanned whatever the filter says. */
  const Supplemental: seq<string> := [
    "UISearchBar",
    "UISearchController",
    "UISegmentedControl",
    "UISwitch",
    "UITabBar",
    "UITabBarController",
    "UITableViewCell",
    "UITextField",
    "UITextView",
    "UIToolbar",
    "UIWebView"
  ]

  /** A class from the runtime's list is enumerated if it has a superclass,
      descends from UIView or UIViewController, and has a public, unqualified
      name. */
  predicate Enumerable(c: LoadedClass)
  {
    && c.hasSuperclass
    && (c.kind == View || c.kind == Controller)
    && !HasPrefix(c.name, "_")
    && '.' !in c.name
  }

  /** The names the enumeration loop appends, in the runtime's order. */
  ghost function EnumeratedNames(loaded: seq<LoadedClass>): seq<string>
    decreases |loaded|
  {
    if loaded == [] then []
    else
      var last := loaded[|loaded| - 1];
      EnumeratedNames(loaded[..|loaded| - 1]) + (if Enumerable(last) then [last.name] else [])
  }

  lemma {:induction false} EnumeratedNamesMembers(loaded: seq<LoadedClass>, n: string)
    ensures n in EnumeratedNames(loaded) <==> exists c :: c in loaded && Enumerable(c) && c.name == n
    decreases |loaded|
  {
    if loaded != [] {
      var init, last := loaded[..|loaded| - 1], loaded[|loaded| - 1];
      assert loaded == init + [last];
      EnumeratedNamesMembers(init, n);
      if n in EnumeratedNames(init) {
        var c :| c in init && Enumerable(c) && c.name == n;
        assert c in loaded;
      }
    }
  }

  /** The name list before filtering: "SKView" (which the runtime does not
      list on its own), then the enumerated names. */
  method CollectNames(loaded: seq<LoadedClass>) returns (names: seq<string>)
    ensures names == ["SKView"] + EnumeratedNames(loaded)
  {
    names := ["SKView"];
    for i := 0 to |loaded|
      invariant names == ["SKView"] + EnumeratedNames(loaded[..i])
    {
      var c := loaded[i];
      assert loaded[..i + 1][..i] == loaded[..i];
      if c.hasSuperclass && (c.kind == View || c.kind == Controller) {
        if !HasPrefix(c.name, "_") && '.' !in c.name {
          names := names + [c.name];
        }
      }
    }
    assert loaded[..|loaded|] == loaded;
  }

  /** Whether some prefix in the list is a prefix of `name`. */
  function AnyPrefix(prefixes: seq<string>, name: string): (r: bool)
    ensures r <==> exists i :: 0 <= i < |prefixes| && HasPrefix(name, prefixes[i])
  {
    if prefixes == [] then false
    else HasPrefix(name, prefixes[0]) || AnyPrefix(prefixes[1..], name)
  }

  /** The filter on names: some allowed prefix matches and no denied prefix does,
      so a denied prefix wins over an allowed one. */
  function Keep(name: string): (r: bool)
    ensures r <==>
      (exists w :: w in Whitelist && HasPrefix(name, w)) &&
      !(exists b :: b in Blacklist && HasPrefix(name, b))
  {
    AnyPrefix(Whitelist, name) && !AnyPrefix(Blacklist, name)
  }

  /** The names that pass `Keep`, in their original order. */
  ghost function Kept(names: seq<string>): seq<string>
    decreases |names|
  {
    if names == [] then []
    else
      var last := names[|names| - 1];
      Kept(names[..|names| - 1]) + (if Keep(last) then [last] else [])
  }

  lemma {:induction false} KeptMembers(names: seq<string>, n: string)
    ensures n in Kept(names) <==> n in names && Keep(n)
    decreases |names|
  {
    if names != [] {
      var init := names[..|names| - 1];
      assert names == init + [names[|names| - 1]];
      KeptMembers(init, n);
    }
  }

  method FilterNames(names: seq<string>) returns (kept: seq<string>)
    ensures kept == Kept(names)
  {
    kept := [];
    for i := 0 to |names|
      invariant kept == Kept(names[..i])
    {
      assert names[..i + 1][..i] == names[..i];
      if AnyPrefix(Whitelist, names[i]) && !AnyPrefix(Blacklist, names[i]) {
        kept := kept + [names[i]];
      }
    }
    assert names[..|names|] == names;
  }

  /** `UIProgressHUD` starts with the allowed prefix `UI` but also with a denied
      prefix, so it is not scanned. */
  lemma ProgressHudExcluded()
    ensures AnyPrefix(Whitelist, "UIProgressHUD")
    ensures !Keep("UIProgressHUD")
  {
    assert HasPrefix("UIProgressHUD", Whitelist[7]);
    assert HasPrefix("UIProgressHUD", Blacklist[60]);
  }

  /** Every supplemental name is rejected by the filter, so each is scanned only
      because the supplemental list is appended after filtering. */
  lemma SupplementalAllDenied()
    ensures forall i :: 0 <= i < |Supplemental| ==> !Keep(Supplemental[i])
  {
    var deniedBy := [68, 68, 67, 79, 81, 81, 83, 89, 89, 90, 95];
    forall i | 0 <= i < |Supplemental|
      ensures !Keep(Supplemental[i])
    {
      Denied(Supplemental[i], deniedBy[i]);
    }
  }

  lemma Denied(name: string, k: nat)
    requires k < |Blacklist| && HasPrefix(name, Blacklist[k])
    ensures !Keep(name)
  {
  }

  /** `props` without the entries it shares, key and type alike, with `base`. */
  function Subtract(props: PropertyMap, base: PropertyMap): PropertyMap
  {
    map k | k in props && !(k in base && base[k] == props[k]) :: props[k]
  }

  /** Removes each entry of `props` that `base` holds under the same key with
      the same type, visiting the keys of `base` in any order. */
  method RemoveInherited(props: PropertyMap, base: PropertyMap) returns (r: PropertyMap)
    ensures forall k :: k in r <==> k in props && !(k in base && base[k] == props[k])
    ensures forall k :: k in r ==> r[k] == props[k]
    ensures r == Subtract(props, base)
  {
    r := props;
    var pending := base.Keys;
    while pending != {}
      invariant pending <= base.Keys
      invariant forall k :: k in r <==> k in props && !(k in base && k !in pending && base[k] == props[k])
      invariant forall k :: k in r ==> r[k] == props[k]
      decreases pending
    {
      var key :| key in pending;
      if key in r && r[key] == base[key] {
        r := r - {key};
      }
      pending := pending - {key};
    }
    assert r.Keys == Subtract(props, base).Keys;
  }

  /** Removing inherited entries leaves no entry equal to the base's entry for
      the same key, and keeps every other entry with its value. */
  lemma SubtractRemovesExactlyInherited(props: PropertyMap, base: PropertyMap)
    ensures forall k :: k in Subtract(props, base) && k in base ==> Subtract(props, base)[k] != base[k]
    ensures forall k :: k in props && (k !in base || base[k] != props[k]) ==>
      k in Subtract(props, base) && Subtract(props, base)[k] == props[k]
    ensures Subtract(props, base).Keys <= props.Keys
  {
  }

  /** A second subtraction against the same base changes nothing. */
  lemma SubtractIdempotent(props: PropertyMap, base: PropertyMap)
    ensures Subtract(Subtract(props, base), base) == Subtract(props, base)
  {
    var once := Subtract(props, base);
    assert Subtract(once, base).Keys == once.Keys;
  }

  /** The two passes for a controller remove exactly the entries equal to the
      controller base's or the view base's entry, in either order. */
  lemma ControllerSubtraction(props: PropertyMap, controllerKeys: PropertyMap, viewKeys: PropertyMap)
    ensures Subtract(Subtract(props, controllerKeys), viewKeys) == Subtract(Subtract(props, viewKeys), controllerKeys)
    ensures forall k :: k in Subtract(Subtract(props, controllerKeys), viewKeys) <==>
      && k in props
      && !(k in controllerKeys && controllerKeys[k] == props[k])
      && !(k in viewKeys && viewKeys[k] == props[k])
  {
    var a := Subtract(Subtract(props, controllerKeys), viewKeys);
    var b := Subtract(Subtract(props, viewKeys), controllerKeys);
    assert a.Keys == b.Keys;
  }

  /** A view with `{x: F, y: F, tint: C}` below a base with `{x: F, y: F}`
      keeps `{tint: C}` only. */
  lemma SpecialViewExample(f: Desc, c: Desc)
    ensures Subtract(map["x" := f, "y" := f, "tint" := c], map["x" := f, "y" := f]) == map["tint" := c]
  {
    var r := Subtract(map["x" := f, "y" := f, "tint" := c], map["x" := f, "y" := f]);
    assert r.Keys == {"tint"};
  }

  /** `base` has the entry of `props` for `k`, with the same type. */
  predicate Inherited(k: string, props: PropertyMap, base: PropertyMap)
  {
    k in props && k in base && base[k] == props[k]
  }

  /** The property map `getProperties` records for `name`: a view's own
      properties less those equal to UIView's, a controller's less those equal
      to UIViewController's or to UIView's, and nothing for any other name. */
  function PropertiesOf(name: string, registry: Registry, viewKeys: PropertyMap, controllerKeys: PropertyMap): (r: PropertyMap)
    ensures (name !in registry || registry[name].kind == Other) ==> r == map[]
    ensures name in registry && registry[name].kind == View ==>
      var own := registry[name].expressionTypes;
      forall k :: k in r <==> k in own && !Inherited(k, own, viewKeys)
    ensures name in registry && registry[name].kind == Controller ==>
      var own := registry[name].expressionTypes;
      forall k :: k in r <==> k in own && !Inherited(k, own, controllerKeys) && !Inherited(k, own, viewKeys)
    ensures forall k :: k in r ==> name in registry && k in registry[name].expressionTypes && r[k] == registry[name].expressionTypes[k]
  {
    if name !in registry then map[]
    else
      var info := registry[name];
      match info.kind
      case View => Subtract(info.expressionTypes, viewKeys)
      case Controller => Subtract(Subtract(info.expressionTypes, controllerKeys), viewKeys)
      case Other => map[]
  }

  /** The loop that fills the result: one entry per name, later duplicates
      overwriting earlier ones with the same map. */
  method BuildCatalog(names: seq<string>, registry: Registry, viewKeys: PropertyMap, controllerKeys: PropertyMap)
    returns (result: Properties)
    ensures result.Keys == Elems(names)
    ensures forall n :: n in result ==> result[n] == PropertiesOf(n, registry, viewKeys, controllerKeys)
  {
    result := map[];
    for i := 0 to |names|
      invariant result.Keys == Elems(names[..i])
      invariant forall n :: n in result ==> result[n] == PropertiesOf(n, registry, viewKeys, controllerKeys)
    {
      var name := names[i];
      var props: PropertyMap;
      if name in registry && registry[name].kind == View {
        props := RemoveInherited(registry[name].expressionTypes, viewKeys);
      } else if name in registry && registry[name].kind == Controller {
        props := RemoveInherited(registry[name].expressionTypes, controllerKeys);
        props := RemoveInherited(props, viewKeys);
      } else {
        props := map[];
      }
      result := result[name := props];
      assert names[..i + 1] == names[..i] + [name];
    }
    assert names[..|names|] == names;
  }

  /** The names `getProperties` scans. */
  ghost function ScannedNames(loaded: seq<LoadedClass>): set<string>
  {
    Elems(Kept(["SKView"] + EnumeratedNames(loaded)) + Supplemental)
  }

  /** The result of `getProperties` for a runtime whose class list is `loaded`,
      whose classes resolve by `registry` and whose UIView and UIViewController
      have the properties `viewKeys` and `controllerKeys`. */
  ghost function CatalogOf(loaded: seq<LoadedClass>, registry: Registry, viewKeys: PropertyMap, controllerKeys: PropertyMap): Properties
  {
    map n | n in ScannedNames(loaded) :: PropertiesOf(n, registry, viewKeys, controllerKeys)
  }

  /** `getProperties`: the scanned names are the enumerated names and "SKView"
      that pass the filter, and every supplemental name; each maps to its
      properties less those it inherits. */
  method GetProperties(loaded: seq<LoadedClass>, registry: Registry, viewKeys: PropertyMap, controllerKeys: PropertyMap)
    returns (result: Properties)
    ensures forall n :: n in result <==>
      n in Supplemental || (Keep(n) && (n == "SKView" || exists c :: c in loaded && Enumerable(c) && c.name == n))
    ensures forall n :: n in result ==> result[n] == PropertiesOf(n, registry, viewKeys, controllerKeys)
    ensures result == CatalogOf(loaded, registry, viewKeys, controllerKeys)
  {
    var names := CollectNames(loaded);
    ghost var collected := names;
    names := FilterNames(names);
    ghost var kept := names;
    names := names + Supplemental;
    result := BuildCatalog(names, registry, viewKeys, controllerKeys);
    forall n
      ensures n in result <==>
        n in Supplemental || (Keep(n) && (n == "SKView" || exists c :: c in loaded && Enumerable(c) && c.name == n))
    {
      KeptMembers(collected, n);
      EnumeratedNamesMembers(loaded, n);
      assert n in names <==> n in kept || n in Supplemental;
    }
    assert result.Keys == ScannedNames(loaded);
  }
}
