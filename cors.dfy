/**
 * The backend's CORS middleware: the allow-list built once from two fixed
 * entries and the ALLOWED_ORIGINS environment variable, and the decision the
 * `origin` callback makes for a request's Origin header. Origins are compared
 * as raw strings; no serialisation of origins (section 6.2 of RFC 6454) is
 * applied to either side.
 */
module Cors {
  import opened JsText

  const LocalDefault: string := "http://localhost:3000" + "/Francois0203"
  const PagesDefault: string := "https://francois0203.github.io" + "/Francois0203/"

  const DefaultAllowed: seq<string> := [LocalDefault, PagesDefault]

  /** An entry that survives `.map(s => s.trim()).filter(Boolean)` unchanged. */
  predicate IsClean(entry: string)
  {
    entry != "" && !IsWhitespace(entry[0]) && !IsWhitespace(entry[|entry| - 1])
  }

  /** `.map(s => s.trim()).filter(Boolean)`: trimmed entries, the empty ones dropped, order kept. */
  function CleanEntries(parts: seq<string>): (r: seq<string>)
    ensures |r| <= |parts|
    ensures forall k :: 0 <= k < |r| ==> IsClean(r[k])
  {
    if parts == [] then []
    else
      var t := Trim(parts[0]);
      var rest := CleanEntries(parts[1..]);
      if t == "" then rest else [t] + rest
  }

  /** Trimming and dropping entries never brings in a separator. */
  lemma {:induction false} CleanEntriesKeepAbsent(parts: seq<string>, c: char)
    requires forall k :: 0 <= k < |parts| ==> c !in parts[k]
    ensures forall k :: 0 <= k < |CleanEntries(parts)| ==> c !in CleanEntries(parts)[k]
  {
    if parts != [] {
      TrimKeepsAbsent(parts[0], c);
      CleanEntriesKeepAbsent(parts[1..], c);
    }
  }

  /** The entries ALLOWED_ORIGINS contributes; an unset variable reads as "". */
  function Extras(env: Option<string>): (r: seq<string>)
    ensures forall k :: 0 <= k < |r| ==> IsClean(r[k]) && ',' !in r[k]
  {
    var text := if env.Some? then env.value else "";
    CleanEntriesKeepAbsent(Split(text, ','), ',');
    CleanEntries(Split(text, ','))
  }

  /** buildAllowedOrigins */
  function BuildAllowedOrigins(env: Option<string>): seq<string>
  {
    DefaultAllowed + Extras(env)
  }

  datatype Decision = Allow | Deny(message: string)

  const DeniedMessage: string := "CORS origin denied"

  /** The `origin` callback: no origin is allowed; otherwise exact membership decides. */
  function Decide(allowed: seq<string>, origin: Option<string>): Decision
  {
    if origin.None? || origin.value == "" then Allow
    else if origin.value in allowed then Allow
    else Deny(DeniedMessage)
  }

  /** An unset or empty ALLOWED_ORIGINS gives exactly the two defaults. */
  lemma UnsetGivesDefaults(env: Option<string>)
    requires env.None? || env.value == ""
    ensures BuildAllowedOrigins(env) == DefaultAllowed
  {
    assert Split("", ',') == [""];
    assert Trim("") == "";
  }

  /**
   * Writing a list of clean origins into ALLOWED_ORIGINS, comma-separated,
   * adds exactly that list.
   */
  lemma {:induction false} ExtrasRoundTrip(xs: seq<string>)
    requires |xs| >= 1
    requires forall k :: 0 <= k < |xs| ==> IsClean(xs[k]) && ',' !in xs[k]
    ensures Extras(Some(Join(xs, ","))) == xs
  {
    SplitJoin(xs, ',');
    CleanClean(xs);
  }

  lemma {:induction false} CleanClean(xs: seq<string>)
    requires forall k :: 0 <= k < |xs| ==> IsClean(xs[k])
    ensures CleanEntries(xs) == xs
  {
    if xs != [] {
      TrimTrimmed(xs[0]);
      CleanClean(xs[1..]);
      assert xs == [xs[0]] + xs[1..];
    }
  }

  /** A request is refused exactly when it carries a non-empty origin that is not on the list. */
  lemma DecideIff(allowed: seq<string>, origin: Option<string>)
    ensures Decide(allowed, origin).Deny? <==> origin.Some? && origin.value != "" && origin.value !in allowed
    ensures Decide(allowed, origin).Deny? ==> Decide(allowed, origin).message == DeniedMessage
  {
  }

  const PagesHost: string := "https://francois0203.github.io"

  /**
   * The defaults carry paths, so the site's own origin as a browser sends it,
   * without a path, is refused unless ALLOWED_ORIGINS lists it.
   */
  lemma BareOriginDenied(extras: seq<string>, origin: string)
    requires origin == PagesHost
    requires origin !in extras
    ensures Decide(DefaultAllowed + extras, Some(origin)) == Deny(DeniedMessage)
  {
    assert |origin| == 30;
  }

  /** Nor is the pages entry without its trailing slash: entries are matched exactly. */
  lemma MissingSlashDenied(extras: seq<string>, origin: string)
    requires origin == PagesHost + "/Francois0203"
    requires origin !in extras
    ensures Decide(DefaultAllowed + extras, Some(origin)) == Deny(DeniedMessage)
  {
    assert |origin| == 43;
  }
}
