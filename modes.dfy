/**
 * The conversation modes of the application and the lookups over them
 * (src/constants/modes.js).
 */
module Modes {
  import opened Wrappers
  import JsText

  /** `CHAT_MODES.DISCOVER_SELF`. */
  const DiscoverSelf: string := "discover-self"
  /** `CHAT_MODES.UNDERSTAND_OTHERS`. */
  const UnderstandOthers: string := "understand-others"

  /** The label shown for an unknown mode. */
  const UnknownLabel: string := "未知模式"

  /** `MODE_CONFIG[mode]?.label`: the configured label of a mode, if it has one. */
  function ConfiguredLabel(mode: string): Option<string> {
    if mode == DiscoverSelf then Some("发掘自己")
    else if mode == UnderstandOthers then Some("了解他人")
    else None
  }

  /** `Object.values(CHAT_MODES).includes(mode)`. */
  predicate IsValidMode(mode: string) {
    mode in [DiscoverSelf, UnderstandOthers]
  }

  /** `getModeLabel`: the configured label, or the unknown-mode label when there is none (or it is empty). */
  function GetModeLabel(mode: string): (r: string)
    ensures mode == DiscoverSelf ==> r == "发掘自己"
    ensures mode == UnderstandOthers ==> r == "了解他人"
    ensures r == UnknownLabel <==> !IsValidMode(mode)
  {
    match ConfiguredLabel(mode)
    case Some(text) => if text != "" then text else UnknownLabel
    case None => UnknownLabel
  }

  /** `getDefaultMode`. */
  function GetDefaultMode(): (r: string)
    ensures IsValidMode(r) && r == DiscoverSelf
  {
    DiscoverSelf
  }

  /**
   * `getModeFromSearchParams`: the query's first `mode` value selects
   * understand-others only when it is exactly that string.
   */
  function GetModeFromSearchParams(params: seq<(string, string)>): (r: string)
    ensures IsValidMode(r)
    ensures r == UnderstandOthers <==> JsText.ParamGet(params, "mode") == Some(UnderstandOthers)
    ensures r == DiscoverSelf <==> JsText.ParamGet(params, "mode") != Some(UnderstandOthers)
  {
    if JsText.ParamGet(params, "mode") == Some(UnderstandOthers) then UnderstandOthers else DiscoverSelf
  }

  /** A mode is valid exactly when the configuration table knows it. */
  lemma ValidIffConfigured(mode: string)
    ensures IsValidMode(mode) <==> ConfiguredLabel(mode).Some?
  {
  }

  /** A query whose first `mode` value is not a valid mode falls back to the default. */
  lemma {:induction false} SearchParamsFallback(params: seq<(string, string)>)
    requires JsText.ParamGet(params, "mode").None? || !IsValidMode(JsText.ParamGet(params, "mode").value)
    ensures GetModeFromSearchParams(params) == GetDefaultMode()
  {
  }
}
