/**
 * The UI package's preference hooks, useTheme and useAnimations. Both keep
 * their value in one JSON object stored under the `userSessionInfo` key of
 * localStorage, read it back at start-up, and on every change set an
 * attribute on the document element and write their own field into that
 * object. Stored text is either what JSON.stringify produced for a value,
 * which JSON.parse gives back, or text JSON.parse rejects. Attribute values
 * are the values handed to setAttribute, before their string conversion.
 */
module UiPreferences {
  import opened JsText
  import opened JsonValues

  /** The text stored under a key, by what JSON.parse makes of it. */
  datatype Text = Serialized(value: Json) | Unparseable(raw: string)

  const SessionKey: string := "userSessionInfo"
  const ThemeField: string := "prefersColorScheme"
  const AnimationsField: string := "animationsEnabled"
  const DataTheme: string := "data-theme"
  const NoAnimations: string := "data-no-animations"

  /**
   * `localStorage.getItem('userSessionInfo')`, then JSON.parse inside
   * `if (sessionInfo)`: None when the item is missing, empty, or not JSON.
   */
  function ReadSession(items: map<string, Text>): (r: Option<Json>)
    ensures r.Some? <==> SessionKey in items && items[SessionKey].Serialized?
    ensures r.Some? ==> r.value == items[SessionKey].value
  {
    if SessionKey in items && items[SessionKey].Serialized? then Some(items[SessionKey].value) else None
  }

  /**
   * getInitialTheme: a truthy stored prefersColorScheme, whatever its type;
   * otherwise "dark" when the system prefers a dark scheme, else "light".
   * Reading a field of a stored null throws and is caught, which is the same
   * as the field being absent.
   */
  function InitialTheme(items: map<string, Text>, prefersDark: bool): Json
  {
    var session := ReadSession(items);
    if session.Some? && Field(session.value, ThemeField).Some? && Truthy(Field(session.value, ThemeField).value) then
      Field(session.value, ThemeField).value
    else if prefersDark then JStr("dark")
    else JStr("light")
  }

  /** getInitialAnimations: a stored animationsEnabled that is not undefined, even false or null; otherwise true. */
  function InitialAnimations(items: map<string, Text>): Json
  {
    var session := ReadSession(items);
    if session.Some? && Field(session.value, AnimationsField).Some? then Field(session.value, AnimationsField).value
    else JBool(true)
  }

  /** toggleTheme: "dark" becomes "light", anything else "dark". */
  function ToggleTheme(theme: Json): Json
  {
    if theme == JStr("dark") then JStr("light") else JStr("dark")
  }

  /** toggleAnimations: `!prev`. */
  function ToggleAnimations(enabled: Json): Json
  {
    JBool(!Truthy(enabled))
  }

  /** The effects' `updatedInfo` before the write: the parsed session, or {} when there is none. */
  function SessionBase(items: map<string, Text>): Json
  {
    var session := ReadSession(items);
    if session.Some? then session.value else JObj(map[])
  }

  /**
   * `updatedInfo[field] = value` and JSON.stringify: an object gains or
   * replaces the field; on an array the named property is set but not
   * serialised; on null and the primitives the assignment throws (module
   * code is strict), which None stands for.
   */
  function WithField(base: Json, field: string, value: Json): (r: Option<Json>)
    ensures base.JObj? ==> r == Some(JObj(base.fields[field := value]))
    ensures base.JArr? ==> r == Some(base)
    ensures !base.JObj? && !base.JArr? ==> r.None?
  {
    match base
    case JObj(fields) => Some(JObj(fields[field := value]))
    case JArr(_) => Some(base)
    case _ => None
  }

  /** The storage after an effect writes one field of the session, or None when the effect throws. */
  function StoreField(items: map<string, Text>, field: string, value: Json): (r: Option<map<string, Text>>)
    ensures r.Some? ==> r.value.Keys == items.Keys + {SessionKey}
    ensures r.Some? ==> forall k :: k in items && k != SessionKey ==> r.value[k] == items[k]
  {
    match WithField(SessionBase(items), field, value)
    case None => None
    case Some(updated) => Some(items[SessionKey := Serialized(updated)])
  }

  /**
   * Round trip: once a truthy theme is written, getInitialTheme returns it,
   * whatever the system prefers, unless the stored session was an array
   * (whose named property is not serialised); the write itself succeeds
   * exactly when the stored session is missing, not JSON, an object or an array.
   */
  lemma ThemeRoundTrip(items: map<string, Text>, theme: Json, prefersDark: bool)
    requires Truthy(theme)
    ensures StoreField(items, ThemeField, theme).Some? <==> SessionBase(items).JObj? || SessionBase(items).JArr?
    ensures SessionBase(items).JObj? ==> InitialTheme(StoreField(items, ThemeField, theme).value, prefersDark) == theme
  {
    if SessionBase(items).JObj? {
      var fields := SessionBase(items).fields[ThemeField := theme];
      assert StoreField(items, ThemeField, theme).value[SessionKey] == Serialized(JObj(fields));
      assert Field(JObj(fields), ThemeField) == Some(theme);
    }
  }

  /** A session stored as an array keeps no preference: the write leaves the storage as it was. */
  lemma ArraySessionDropsField(items: map<string, Text>, field: string, value: Json)
    requires SessionKey in items && items[SessionKey].Serialized? && items[SessionKey].value.JArr?
    ensures StoreField(items, field, value) == Some(items)
  {
    assert items[SessionKey := Serialized(items[SessionKey].value)] == items;
  }

  /** A session stored as null, a boolean, a number or a string makes the effect throw before it writes. */
  lemma PrimitiveSessionThrows(items: map<string, Text>, field: string, value: Json)
    requires SessionKey in items && items[SessionKey].Serialized?
    requires !items[SessionKey].value.JObj? && !items[SessionKey].value.JArr?
    ensures StoreField(items, field, value).None?
  {
  }

  /** An unparseable session is replaced by an object holding only the written field. */
  lemma CorruptSessionReplaced(items: map<string, Text>, field: string, value: Json)
    requires SessionKey in items && items[SessionKey].Unparseable?
    ensures StoreField(items, field, value) == Some(items[SessionKey := Serialized(JObj(map[field := value]))])
  {
    assert map[][field := value] == map[field := value];
  }

  /** Round trip: a persisted animations value is what getInitialAnimations returns next, false included. */
  lemma AnimationsRoundTrip(items: map<string, Text>, enabled: Json)
    requires SessionBase(items).JObj?
    ensures StoreField(items, AnimationsField, enabled).Some?
    ensures InitialAnimations(StoreField(items, AnimationsField, enabled).value) == enabled
  {
    var fields := SessionBase(items).fields[AnimationsField := enabled];
    assert Field(JObj(fields), AnimationsField) == Some(enabled);
  }

  /** Writing one hook's field leaves every other field of the session as it was. */
  lemma OtherFieldsKept(items: map<string, Text>, field: string, value: Json, other: string)
    requires other != field
    requires StoreField(items, field, value).Some?
    ensures Field(SessionBase(StoreField(items, field, value).value), other) == Field(SessionBase(items), other)
  {
  }

  /** Persisting the animations flag does not disturb the stored theme, and persisting the theme does not disturb the flag. */
  lemma HooksDoNotInterfere(items: map<string, Text>, theme: Json, enabled: Json, prefersDark: bool)
    ensures StoreField(items, AnimationsField, enabled).Some? ==>
      InitialTheme(StoreField(items, AnimationsField, enabled).value, prefersDark) == InitialTheme(items, prefersDark)
    ensures StoreField(items, ThemeField, theme).Some? ==>
      InitialAnimations(StoreField(items, ThemeField, theme).value) == InitialAnimations(items)
  {
    if StoreField(items, AnimationsField, enabled).Some? {
      OtherFieldsKept(items, AnimationsField, enabled, ThemeField);
    }
    if StoreField(items, ThemeField, theme).Some? {
      OtherFieldsKept(items, ThemeField, theme, AnimationsField);
    }
  }

  /** With nothing usable stored, the system preference decides the theme and animations are on. */
  lemma Defaults(items: map<string, Text>, prefersDark: bool)
    requires SessionKey !in items || items[SessionKey].Unparseable?
    ensures InitialTheme(items, prefersDark) == (if prefersDark then JStr("dark") else JStr("light"))
    ensures InitialAnimations(items) == JBool(true)
  {
  }

  /** The theme toggle swaps dark and light; any other value becomes dark. */
  lemma ToggleThemeCases(theme: Json)
    ensures theme == JStr("dark") ==> ToggleTheme(theme) == JStr("light")
    ensures theme != JStr("dark") ==> ToggleTheme(theme) == JStr("dark")
    ensures theme == JStr("dark") || theme == JStr("light") ==> ToggleTheme(ToggleTheme(theme)) == theme
  {
  }

  /**
   * Toggling the animations twice gives back a boolean flag unchanged; any
   * other stored value comes back as the boolean of its truthiness.
   */
  lemma ToggleAnimationsTwice(enabled: Json)
    ensures ToggleAnimations(ToggleAnimations(enabled)) == JBool(Truthy(enabled))
    ensures enabled.JBool? ==> ToggleAnimations(ToggleAnimations(enabled)) == enabled
    ensures Truthy(ToggleAnimations(enabled)) <==> !Truthy(enabled)
  {
  }

  /** The browser state the two hooks touch: localStorage and the document element's attributes. */
  class Browser {
    var items: map<string, Text>
    var attributes: map<string, Json>

    constructor (items0: map<string, Text>, attributes0: map<string, Json>)
      ensures items == items0 && attributes == attributes0
    {
      items := items0;
      attributes := attributes0;
    }

    /** useTheme's effect: the data-theme attribute, then the prefersColorScheme field. */
    method PersistTheme(theme: Json) returns (ok: bool)
      modifies this
      ensures attributes == old(attributes)[DataTheme := theme]
      ensures ok <==> StoreField(old(items), ThemeField, theme).Some?
      ensures items == if ok then StoreField(old(items), ThemeField, theme).value else old(items)
    {
      attributes := attributes[DataTheme := theme];
      var base := SessionBase(items);
      match base {
        case JObj(fields) =>
          var updated := fields[ThemeField := theme];
          items := items[SessionKey := Serialized(JObj(updated))];
          ok := true;
        case JArr(_) =>
          items := items[SessionKey := Serialized(base)];
          ok := true;
        case _ =>
          ok := false;
      }
    }

    /** useAnimations' effect: data-no-animations removed when on and "true" when off, then the animationsEnabled field. */
    method PersistAnimations(enabled: Json) returns (ok: bool)
      modifies this
      ensures attributes == if Truthy(enabled) then old(attributes) - {NoAnimations}
                            else old(attributes)[NoAnimations := JStr("true")]
      ensures ok <==> StoreField(old(items), AnimationsField, enabled).Some?
      ensures items == if ok then StoreField(old(items), AnimationsField, enabled).value else old(items)
    {
      if Truthy(enabled) {
        attributes := attributes - {NoAnimations};
      } else {
        attributes := attributes[NoAnimations := JStr("true")];
      }
      var base := SessionBase(items);
      match base {
        case JObj(fields) =>
          var updated := fields[AnimationsField := enabled];
          items := items[SessionKey := Serialized(JObj(updated))];
          ok := true;
        case JArr(_) =>
          items := items[SessionKey := Serialized(base)];
          ok := true;
        case _ =>
          ok := false;
      }
    }
  }
}
