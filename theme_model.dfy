/** The theme as the server describes it: colours and images for each part
    of the screen, the tab bar icons, and one look per button slot.  Two
    themes count as the same theme when their id and version agree. */
module Theme {
  import opened Wrappers

  /** The images of one tab bar item, selected and not. */
  datatype TabbarIconPair = TabbarIconPair(selected: string, unselected: string)

  datatype TabbarIcons = TabbarIcons(
    home: TabbarIconPair,
    theme: TabbarIconPair,
    profile: TabbarIconPair,
    camera: Option<TabbarIconPair>,
    voice: Option<TabbarIconPair>)

  /** The look of one button slot; `typeName`, the `type` of the server's data, names the slot ("TYPE_A" ...). */
  datatype ButtonTheme = ButtonTheme(
    id: int,
    typeName: string,
    fontColor: string,
    fontSize: int,
    pressedColor: Option<string>,
    pressedImage: Option<string>,
    releasedColor: Option<string>,
    releasedImage: Option<string>,
    colorOpacity: real,
    sound: Option<string>,
    useImage: bool)

  datatype ThemeModel = ThemeModel(
    id: int,
    name: string,
    version: string,
    isPaid: bool,
    createTime: string,
    updateTime: Option<string>,
    detailImage: string,
    previewImage: string,
    globalBackgroundColor: string,
    globalBackgroundImage: Option<string>,
    hasGlobalBackgroundImage: bool,
    resultBackgroundColor: string,
    resultBackgroundImage: Option<string>,
    resultUseImage: bool,
    resultFontColor: string,
    resultFontSize: int,
    topButtonSelectedColor: string,
    topButtonSelectedFontColor: string,
    topButtonSelectedImage: Option<string>,
    topButtonUnselectedColor: string,
    topButtonUnselectedFontColor: string,
    topButtonUnselectedImage: Option<string>,
    topButtonUseImage: bool,
    customTabbar: bool,
    tabbarBackgroundColor: string,
    tabbarBackgroundImage: Option<string>,
    tabbarBackgroundOpacity: real,
    tabbarFontColor: Option<string>,
    tabbarFontSize: int,
    tabbarSelectedFontColor: string,
    tabbarUnselectedFontColor: string,
    tabbarUseImage: bool,
    tabbarIcons: TabbarIcons,
    buttons: seq<ButtonTheme>,
    useSystemFont: bool)

  /** The theme equality: the same id and the same version, whatever the
      rest holds. */
  predicate Same(lhs: ThemeModel, rhs: ThemeModel)
    ensures lhs == rhs ==> Same(lhs, rhs)
  {
    lhs.id == rhs.id && lhs.version == rhs.version
  }

  /** The theme equality is an equivalence relation. */
  lemma SameIsEquivalence(a: ThemeModel, b: ThemeModel, c: ThemeModel)
    ensures Same(a, a)
    ensures Same(a, b) ==> Same(b, a)
    ensures Same(a, b) && Same(b, c) ==> Same(a, c)
  {
  }

  /** Field-by-field equal themes are the same theme. */
  lemma EqualThemesAreSame(a: ThemeModel, b: ThemeModel)
    requires a == b
    ensures Same(a, b)
  {
  }

  /** Only the id and the version take part: replacing every other field
      leaves the answer unchanged. */
  lemma SameIgnoresOtherFields(a: ThemeModel, b: ThemeModel, a': ThemeModel, b': ThemeModel)
    requires a'.id == a.id && a'.version == a.version
    requires b'.id == b.id && b'.version == b.version
    ensures Same(a', b') <==> Same(a, b)
  {
  }

  /** So a theme whose buttons were redesigned without a new version number
      still counts as the same theme as before. */
  lemma RedesignWithoutNewVersionIsSame(t: ThemeModel, buttons: seq<ButtonTheme>)
    ensures Same(t, t.(buttons := buttons))
    ensures buttons != t.buttons ==> t != t.(buttons := buttons)
  {
  }
}
