/**
 * The YouTube player configuration and its encoder to the IFrame player
 * parameters: a record of independent optional options, and the sparse keyed
 * map that `encode(to:)` produces from it.
 */
module Configuration {
  import opened Wrappers

  /** The progress-bar colour: a closed enumeration, passed through to the `color` key as its own token. */
  datatype Color = Red | White

  /** A value stored under a player-parameter key. */
  datatype WireValue = Int(i: int) | Str(s: string) | ColorTok(color: Color)

  /**
   * `YouTubePlayer.Configuration`. Every field is independently optional; the
   * memberwise initialiser leaves every field it is not given absent, so
   * `PlayerConfiguration()` is the configuration with nothing set.
   * The first two fields are read by the host only and are never encoded.
   */
  datatype PlayerConfiguration = PlayerConfiguration(
    isUserInteractionEnabled: Option<bool> := None,
    allowsPictureInPictureMediaPlayback: Option<bool> := None,
    autoPlay: Option<bool> := None,
    captionLanguage: Option<string> := None,
    captionsClosed: Option<bool> := None,
    color: Option<Color> := None,
    showControls: Option<bool> := None,
    keyboardControlsDisabled: Option<bool> := None,
    enableJsAPI: Option<bool> := None,
    endTime: Option<int> := None,
    showFullscreenButton: Option<bool> := None,
    language: Option<string> := None,
    showAnnotations: Option<bool> := None,
    loopEnabled: Option<bool> := None,
    modestBranding: Option<bool> := None,
    playInline: Option<bool> := None,
    showRelatedVideos: Option<bool> := None,
    startTime: Option<int> := None,
    referrer: Option<string> := None
  )

  /** True when none of the seventeen encoded fields is set (the host-only flags may be). */
  predicate WireFieldsAbsent(c: PlayerConfiguration)
  {
    && c.autoPlay.None? && c.captionLanguage.None? && c.captionsClosed.None?
    && c.color.None? && c.showControls.None? && c.keyboardControlsDisabled.None?
    && c.enableJsAPI.None? && c.endTime.None? && c.showFullscreenButton.None?
    && c.language.None? && c.showAnnotations.None? && c.loopEnabled.None?
    && c.modestBranding.None? && c.playInline.None? && c.showRelatedVideos.None?
    && c.startTime.None? && c.referrer.None?
  }

  // ---------------------------------------------------------------------------
  // Building a configuration through a configure closure
  // ---------------------------------------------------------------------------

  /**
   * `init(configure:)`: start from the configuration with nothing set, let the
   * closure change it (an `inout` closure is a function from the old value to
   * the new one), and return the result.
   */
  method InitConfigure(configure: PlayerConfiguration -> PlayerConfiguration) returns (c: PlayerConfiguration)
    ensures c == configure(PlayerConfiguration())
    ensures (forall x :: configure(x) == x) ==>
              WireFieldsAbsent(c) && c.isUserInteractionEnabled.None? && c.allowsPictureInPictureMediaPlayback.None?
  {
    var playerConfiguration := PlayerConfiguration();
    playerConfiguration := configure(playerConfiguration);
    c := playerConfiguration;
  }

  // ---------------------------------------------------------------------------
  // The coding keys
  // ---------------------------------------------------------------------------

  /** `CodingKeys`: one case per encoded field, plus three keys the protocol reserves. */
  datatype CodingKey =
    | AutoPlay | CaptionLanguage | CaptionsClosed | ColorKey | ShowControls
    | KeyboardControlsDisabled | EnableJsAPI | EndTime | ShowFullscreenButton
    | Language | ShowAnnotations | List | ListType | LoopEnabled | ModestBranding
    | Origin | PlayInline | ShowRelatedVideos | StartTime | Referrer

  const AllCodingKeys: set<CodingKey> :=
    {AutoPlay, CaptionLanguage, CaptionsClosed, ColorKey, ShowControls,
     KeyboardControlsDisabled, EnableJsAPI, EndTime, ShowFullscreenButton,
     Language, ShowAnnotations, List, ListType, LoopEnabled, ModestBranding,
     Origin, PlayInline, ShowRelatedVideos, StartTime, Referrer}

  /** The keys whose field is a plain Bool encoded through `bit`. */
  const BitKeys: set<CodingKey> :=
    {AutoPlay, CaptionsClosed, ShowControls, KeyboardControlsDisabled, EnableJsAPI,
     ShowFullscreenButton, LoopEnabled, ModestBranding, PlayInline, ShowRelatedVideos}

  /** The keys the protocol reserves for the transport; no configuration field backs them. */
  const ReservedKeys: set<CodingKey> := {List, ListType, Origin}

  /**
   * The key's string value: a fixed table, not derived from the field names.
   */
  function RawValue(k: CodingKey): (r: string)
    ensures |r| > 0
  {
    match k
    case AutoPlay => "autoplay"
    case CaptionLanguage => "cc_lang_pref"
    case CaptionsClosed => "cc_load_policy"
    case ColorKey => "color"
    case ShowControls => "controls"
    case KeyboardControlsDisabled => "disablekb"
    case EnableJsAPI => "enablejsapi"
    case EndTime => "end"
    case ShowFullscreenButton => "fs"
    case Language => "hl"
    case ShowAnnotations => "iv_load_policy"
    case List => "list"
    case ListType => "listType"
    case LoopEnabled => "loop"
    case ModestBranding => "modestbranding"
    case Origin => "origin"
    case PlayInline => "playsinline"
    case ShowRelatedVideos => "rel"
    case StartTime => "start"
    case Referrer => "widget_referrer"
  }

  /** The key a string value names, if any: the inverse of the table. */
  function KeyFor(s: string): (r: Option<CodingKey>)
    ensures r.Some? ==> RawValue(r.value) == s
  {
    if s == "autoplay" then Some(AutoPlay)
    else if s == "cc_lang_pref" then Some(CaptionLanguage)
    else if s == "cc_load_policy" then Some(CaptionsClosed)
    else if s == "color" then Some(ColorKey)
    else if s == "controls" then Some(ShowControls)
    else if s == "disablekb" then Some(KeyboardControlsDisabled)
    else if s == "enablejsapi" then Some(EnableJsAPI)
    else if s == "end" then Some(EndTime)
    else if s == "fs" then Some(ShowFullscreenButton)
    else if s == "hl" then Some(Language)
    else if s == "iv_load_policy" then Some(ShowAnnotations)
    else if s == "list" then Some(List)
    else if s == "listType" then Some(ListType)
    else if s == "loop" then Some(LoopEnabled)
    else if s == "modestbranding" then Some(ModestBranding)
    else if s == "origin" then Some(Origin)
    else if s == "playsinline" then Some(PlayInline)
    else if s == "rel" then Some(ShowRelatedVideos)
    else if s == "start" then Some(StartTime)
    else if s == "widget_referrer" then Some(Referrer)
    else None
  }

  /** The inverse recovers every key from its string value. */
  lemma {:induction false} KeyForRawValue(k: CodingKey)
    ensures KeyFor(RawValue(k)) == Some(k)
  {
    match k
    case AutoPlay =>
    case CaptionLanguage =>
    case CaptionsClosed =>
    case ColorKey =>
    case ShowControls =>
    case KeyboardControlsDisabled =>
    case EnableJsAPI =>
    case EndTime =>
    case ShowFullscreenButton =>
    case Language =>
    case ShowAnnotations =>
    case List =>
    case ListType =>
    case LoopEnabled =>
    case ModestBranding =>
    case Origin =>
    case PlayInline =>
    case ShowRelatedVideos =>
    case StartTime =>
    case Referrer =>
  }

  /** So the table is injective: no two keys share a string value. */
  lemma RawValueInjective(k1: CodingKey, k2: CodingKey)
    ensures RawValue(k1) == RawValue(k2) <==> k1 == k2
  {
    KeyForRawValue(k1);
    KeyForRawValue(k2);
  }

  // ---------------------------------------------------------------------------
  // Value encodings
  // ---------------------------------------------------------------------------

  /** `Bool.bit`: the binary digit of a Bool. */
  function Bit(b: bool): (r: int)
    ensures r == 0 || r == 1
    ensures r == 1 <==> b
  {
    if b then 1 else 0
  }

  /** The `iv_load_policy` value: 1 shows annotations, 3 hides them. */
  function AnnotationPolicy(shown: bool): (r: int)
    ensures r == 1 || r == 3
    ensures r == 1 <==> shown
  {
    if shown then 1 else 3
  }

  // Optional chaining (`field?.bit`, or the field itself) for each kind of field.

  function BitValue(o: Option<bool>): (r: Option<WireValue>)
    ensures r.Some? <==> o.Some?
    ensures o.Some? ==> r.value == Int(Bit(o.value))
  {
    match o
    case None => None
    case Some(b) => Some(Int(Bit(b)))
  }

  function AnnotationValue(o: Option<bool>): (r: Option<WireValue>)
    ensures r.Some? <==> o.Some?
    ensures o.Some? ==> r.value == Int(AnnotationPolicy(o.value))
  {
    match o
    case None => None
    case Some(b) => Some(Int(AnnotationPolicy(b)))
  }

  function IntValue(o: Option<int>): (r: Option<WireValue>)
    ensures r.Some? <==> o.Some?
    ensures o.Some? ==> r.value == Int(o.value)
  {
    match o
    case None => None
    case Some(i) => Some(Int(i))
  }

  function StrValue(o: Option<string>): (r: Option<WireValue>)
    ensures r.Some? <==> o.Some?
    ensures o.Some? ==> r.value == Str(o.value)
  {
    match o
    case None => None
    case Some(s) => Some(Str(s))
  }

  function ColorValue(o: Option<Color>): (r: Option<WireValue>)
    ensures r.Some? <==> o.Some?
    ensures o.Some? ==> r.value == ColorTok(o.value)
  {
    match o
    case None => None
    case Some(col) => Some(ColorTok(col))
  }

  /**
   * The value handed to `encodeIfPresent` for key `k`: absent exactly when the
   * field is absent, and absent for the reserved keys, which this encoder never
   * writes.
   */
  function Payload(c: PlayerConfiguration, k: CodingKey): (r: Option<WireValue>)
    ensures k in ReservedKeys ==> r.None?
    ensures k in BitKeys && r.Some? ==> r.value == Int(0) || r.value == Int(1)
    ensures k == ShowAnnotations && r.Some? ==> r.value == Int(1) || r.value == Int(3)
  {
    match k
    case AutoPlay => BitValue(c.autoPlay)
    case CaptionLanguage => StrValue(c.captionLanguage)
    case CaptionsClosed => BitValue(c.captionsClosed)
    case ColorKey => ColorValue(c.color)
    case ShowControls => BitValue(c.showControls)
    case KeyboardControlsDisabled => BitValue(c.keyboardControlsDisabled)
    case EnableJsAPI => BitValue(c.enableJsAPI)
    case EndTime => IntValue(c.endTime)
    case ShowFullscreenButton => BitValue(c.showFullscreenButton)
    case Language => StrValue(c.language)
    case ShowAnnotations => AnnotationValue(c.showAnnotations)
    case List => None
    case ListType => None
    case LoopEnabled => BitValue(c.loopEnabled)
    case ModestBranding => BitValue(c.modestBranding)
    case Origin => None
    case PlayInline => BitValue(c.playInline)
    case ShowRelatedVideos => BitValue(c.showRelatedVideos)
    case StartTime => IntValue(c.startTime)
    case Referrer => StrValue(c.referrer)
  }

  // ---------------------------------------------------------------------------
  // The encoder
  // ---------------------------------------------------------------------------

  /**
   * `KeyedEncodingContainer.encodeIfPresent`: store a present value under the
   * key's string value, do nothing for an absent one.
   */
  function EncodeIfPresent(container: map<string, WireValue>, value: Option<WireValue>, key: CodingKey): (r: map<string, WireValue>)
    ensures r.Keys == if value.Some? then container.Keys + {RawValue(key)} else container.Keys
    ensures value.Some? ==> r[RawValue(key)] == value.value
    ensures forall s :: s in container && s != RawValue(key) ==> r[s] == container[s]
  {
    match value
    case None => container
    case Some(v) => container[RawValue(key) := v]
  }

  /** The keys in the order `encode(to:)` passes them to `encodeIfPresent`. */
  const EncodingOrder: seq<CodingKey> :=
    [AutoPlay, CaptionLanguage, CaptionsClosed, ColorKey, ShowControls,
     KeyboardControlsDisabled, EnableJsAPI, EndTime, ShowFullscreenButton,
     Language, ShowAnnotations, LoopEnabled, ModestBranding, PlayInline,
     ShowRelatedVideos, StartTime, Referrer]

  /** One `encodeIfPresent` call per key of `keys`, in order, each with that key's payload. */
  function Fill(c: PlayerConfiguration, container: map<string, WireValue>, keys: seq<CodingKey>): (r: map<string, WireValue>)
    ensures container.Keys <= r.Keys
    ensures r.Keys <= container.Keys + KeyStrings(keys)
    decreases |keys|
  {
    if keys == [] then container
    else
      assert KeyStrings(keys) == {RawValue(keys[0])} + KeyStrings(keys[1..]);
      Fill(c, EncodeIfPresent(container, Payload(c, keys[0]), keys[0]), keys[1..])
  }

  /** The string values of the keys of a run. */
  function KeyStrings(keys: seq<CodingKey>): (r: set<string>)
    ensures forall k :: k in keys ==> RawValue(k) in r
  {
    set k | k in keys :: RawValue(k)
  }

  /** `encode(to:)`: the calls in the source's order, starting from an empty container. */
  function EncodedParameters(c: PlayerConfiguration): (r: map<string, WireValue>)
    ensures r.Keys <= KeyStrings(EncodingOrder)
  {
    Fill(c, map[], EncodingOrder)
  }

  /**
   * A run of calls adds the string value of a key exactly when the key is in
   * the run and its payload is present, with that payload, and leaves every
   * other entry alone: no call overwrites another key's entry.
   */
  lemma {:induction false} FillAt(c: PlayerConfiguration, container: map<string, WireValue>, keys: seq<CodingKey>, k: CodingKey)
    ensures RawValue(k) in Fill(c, container, keys) <==> RawValue(k) in container || (k in keys && Payload(c, k).Some?)
    ensures k in keys && Payload(c, k).Some? ==> Fill(c, container, keys)[RawValue(k)] == Payload(c, k).value
    ensures !(k in keys && Payload(c, k).Some?) && RawValue(k) in container ==>
              Fill(c, container, keys)[RawValue(k)] == container[RawValue(k)]
    decreases |keys|
  {
    if keys != [] {
      RawValueInjective(keys[0], k);
      FillAt(c, EncodeIfPresent(container, Payload(c, keys[0]), keys[0]), keys[1..], k);
      assert k in keys <==> k == keys[0] || k in keys[1..];
    }
  }

  /** A run of calls leaves every entry alone that no key of the run with a present payload writes. */
  lemma {:induction false} FillKeeps(c: PlayerConfiguration, container: map<string, WireValue>, keys: seq<CodingKey>, s: string)
    ensures s in container && (forall k :: k in keys && Payload(c, k).Some? ==> RawValue(k) != s) ==>
              s in Fill(c, container, keys) && Fill(c, container, keys)[s] == container[s]
    decreases |keys|
  {
    if keys != [] && s in container && (forall k :: k in keys && Payload(c, k).Some? ==> RawValue(k) != s) {
      var next := EncodeIfPresent(container, Payload(c, keys[0]), keys[0]);
      assert keys[0] in keys;
      assert s in next && next[s] == container[s];
      assert forall k :: k in keys[1..] ==> k in keys;
      FillKeeps(c, next, keys[1..], s);
    }
  }

  /** A run of calls adds no string other than the string value of one of its keys with a present payload. */
  lemma {:induction false} FillAdds(c: PlayerConfiguration, container: map<string, WireValue>, keys: seq<CodingKey>, s: string)
    requires s in Fill(c, container, keys) && s !in container
    ensures exists k :: k in keys && Payload(c, k).Some? && RawValue(k) == s
    decreases |keys|
  {
    var k := keys[0];
    var next := EncodeIfPresent(container, Payload(c, k), k);
    if s in next {
      assert RawValue(k) == s && Payload(c, k).Some?;
    } else {
      FillAdds(c, next, keys[1..], s);
      var k' :| k' in keys[1..] && Payload(c, k').Some? && RawValue(k') == s;
      assert k' in keys;
    }
  }

  // ---------------------------------------------------------------------------
  // Properties of the encoding
  // ---------------------------------------------------------------------------

  /** A key's string value is in the output exactly when its field is set, and carries the field's payload. */
  lemma EncodedAt(c: PlayerConfiguration, k: CodingKey)
    ensures RawValue(k) in EncodedParameters(c) <==> Payload(c, k).Some?
    ensures RawValue(k) in EncodedParameters(c) ==> EncodedParameters(c)[RawValue(k)] == Payload(c, k).value
  {
    FillAt(c, map[], EncodingOrder, k);
    ReservedPayloadAbsent(c, k);
  }

  /**
   * Every emitted key is the string value of one of the seventeen field keys;
   * the reserved keys `list`, `listType` and `origin` are never emitted.
   */
  lemma EncodedKeys(c: PlayerConfiguration)
    ensures forall s :: s in EncodedParameters(c) ==> exists k :: k !in ReservedKeys && RawValue(k) == s
    ensures forall k :: k in ReservedKeys ==> RawValue(k) !in EncodedParameters(c)
  {
    forall s | s in EncodedParameters(c) ensures exists k :: k !in ReservedKeys && RawValue(k) == s {
      FillAdds(c, map[], EncodingOrder, s);
      var k :| k in EncodingOrder && Payload(c, k).Some? && RawValue(k) == s;
      ReservedPayloadAbsent(c, k);
    }
    forall k | k in ReservedKeys ensures RawValue(k) !in EncodedParameters(c) {
      EncodedAt(c, k);
      ReservedPayloadAbsent(c, k);
    }
  }

  /**
   * The output is characterised by its payloads: a string map carries the
   * payloads of `c` when each key's string value is present exactly when the
   * key's payload is, holds that payload, and no other string is present.
   */
  ghost predicate CarriesPayloads(c: PlayerConfiguration, m: map<string, WireValue>)
  {
    && (forall k :: RawValue(k) in m <==> Payload(c, k).Some?)
    && (forall k :: RawValue(k) in m ==> m[RawValue(k)] == Payload(c, k).value)
    && (forall s :: s in m ==> exists k :: RawValue(k) == s)
  }

  /** `encode(to:)` emits a key exactly when its field is set, with the field's payload, and nothing else. */
  lemma EncodedCarriesPayloads(c: PlayerConfiguration)
    ensures CarriesPayloads(c, EncodedParameters(c))
  {
    forall k ensures RawValue(k) in EncodedParameters(c) <==> Payload(c, k).Some?
      ensures RawValue(k) in EncodedParameters(c) ==> EncodedParameters(c)[RawValue(k)] == Payload(c, k).value
    {
      EncodedAt(c, k);
    }
    forall s | s in EncodedParameters(c) ensures exists k :: RawValue(k) == s {
      FillAdds(c, map[], EncodingOrder, s);
    }
  }

  /** At most one map carries the payloads of a configuration, so the characterisation is complete. */
  lemma CarriesPayloadsUnique(c: PlayerConfiguration, m1: map<string, WireValue>, m2: map<string, WireValue>)
    requires CarriesPayloads(c, m1) && CarriesPayloads(c, m2)
    ensures m1 == m2
  {
    forall s | s in m1 ensures s in m2 && m2[s] == m1[s] {
      var k :| RawValue(k) == s;
    }
    forall s | s in m2 ensures s in m1 {
      var k :| RawValue(k) == s;
    }
  }

  /** Two configurations with the same payloads have the same output. */
  lemma SamePayloadsSameOutput(c1: PlayerConfiguration, c2: PlayerConfiguration, m1: map<string, WireValue>, m2: map<string, WireValue>)
    requires forall k :: Payload(c1, k) == Payload(c2, k)
    requires CarriesPayloads(c1, m1) && CarriesPayloads(c2, m2)
    ensures m1 == m2
  {
    assert CarriesPayloads(c2, m1);
    CarriesPayloadsUnique(c2, m1, m2);
  }

  /**
   * The player-parameter table, for any map carrying the payloads (the
   * encoder's output is one): each of the seventeen encoded fields appears
   * under its key exactly when it is set, with the value the protocol
   * expects (Bools as 1/0, annotations as 1/3, numbers and strings
   * unchanged, the colour as its token).
   */
  lemma WireTable(c: PlayerConfiguration, m: map<string, WireValue>)
    requires CarriesPayloads(c, m)
    ensures
      && (RawValue(AutoPlay) in m <==> c.autoPlay.Some?)
      && (c.autoPlay.Some? ==> m[RawValue(AutoPlay)] == Int(if c.autoPlay.value then 1 else 0))
      && (RawValue(CaptionLanguage) in m <==> c.captionLanguage.Some?)
      && (c.captionLanguage.Some? ==> m[RawValue(CaptionLanguage)] == Str(c.captionLanguage.value))
      && (RawValue(CaptionsClosed) in m <==> c.captionsClosed.Some?)
      && (c.captionsClosed.Some? ==> m[RawValue(CaptionsClosed)] == Int(if c.captionsClosed.value then 1 else 0))
      && (RawValue(ColorKey) in m <==> c.color.Some?)
      && (c.color.Some? ==> m[RawValue(ColorKey)] == ColorTok(c.color.value))
      && (RawValue(ShowControls) in m <==> c.showControls.Some?)
      && (c.showControls.Some? ==> m[RawValue(ShowControls)] == Int(if c.showControls.value then 1 else 0))
      && (RawValue(KeyboardControlsDisabled) in m <==> c.keyboardControlsDisabled.Some?)
      && (c.keyboardControlsDisabled.Some? ==> m[RawValue(KeyboardControlsDisabled)] == Int(if c.keyboardControlsDisabled.value then 1 else 0))
      && (RawValue(EnableJsAPI) in m <==> c.enableJsAPI.Some?)
      && (c.enableJsAPI.Some? ==> m[RawValue(EnableJsAPI)] == Int(if c.enableJsAPI.value then 1 else 0))
      && (RawValue(EndTime) in m <==> c.endTime.Some?)
      && (c.endTime.Some? ==> m[RawValue(EndTime)] == Int(c.endTime.value))
      && (RawValue(ShowFullscreenButton) in m <==> c.showFullscreenButton.Some?)
      && (c.showFullscreenButton.Some? ==> m[RawValue(ShowFullscreenButton)] == Int(if c.showFullscreenButton.value then 1 else 0))
      && (RawValue(Language) in m <==> c.language.Some?)
      && (c.language.Some? ==> m[RawValue(Language)] == Str(c.language.value))
      && (RawValue(ShowAnnotations) in m <==> c.showAnnotations.Some?)
      && (c.showAnnotations.Some? ==> m[RawValue(ShowAnnotations)] == Int(if c.showAnnotations.value then 1 else 3))
      && (RawValue(LoopEnabled) in m <==> c.loopEnabled.Some?)
      && (c.loopEnabled.Some? ==> m[RawValue(LoopEnabled)] == Int(if c.loopEnabled.value then 1 else 0))
      && (RawValue(ModestBranding) in m <==> c.modestBranding.Some?)
      && (c.modestBranding.Some? ==> m[RawValue(ModestBranding)] == Int(if c.modestBranding.value then 1 else 0))
      && (RawValue(PlayInline) in m <==> c.playInline.Some?)
      && (c.playInline.Some? ==> m[RawValue(PlayInline)] == Int(if c.playInline.value then 1 else 0))
      && (RawValue(ShowRelatedVideos) in m <==> c.showRelatedVideos.Some?)
      && (c.showRelatedVideos.Some? ==> m[RawValue(ShowRelatedVideos)] == Int(if c.showRelatedVideos.value then 1 else 0))
      && (RawValue(StartTime) in m <==> c.startTime.Some?)
      && (c.startTime.Some? ==> m[RawValue(StartTime)] == Int(c.startTime.value))
      && (RawValue(Referrer) in m <==> c.referrer.Some?)
      && (c.referrer.Some? ==> m[RawValue(Referrer)] == Str(c.referrer.value))
  {
    CarriesAt(c, m, AutoPlay);
    CarriesAt(c, m, CaptionLanguage);
    CarriesAt(c, m, CaptionsClosed);
    CarriesAt(c, m, ColorKey);
    CarriesAt(c, m, ShowControls);
    CarriesAt(c, m, KeyboardControlsDisabled);
    CarriesAt(c, m, EnableJsAPI);
    CarriesAt(c, m, EndTime);
    CarriesAt(c, m, ShowFullscreenButton);
    CarriesAt(c, m, Language);
    CarriesAt(c, m, ShowAnnotations);
    CarriesAt(c, m, LoopEnabled);
    CarriesAt(c, m, ModestBranding);
    CarriesAt(c, m, PlayInline);
    CarriesAt(c, m, ShowRelatedVideos);
    CarriesAt(c, m, StartTime);
    CarriesAt(c, m, Referrer);
  }

  lemma CarriesAt(c: PlayerConfiguration, m: map<string, WireValue>, k: CodingKey)
    requires CarriesPayloads(c, m)
    ensures RawValue(k) in m <==> Payload(c, k).Some?
    ensures RawValue(k) in m ==> m[RawValue(k)] == Payload(c, k).value
  {
  }

  /** With none of the encoded fields set, nothing is encoded. */
  lemma AbsentFieldsEncodeEmpty(c: PlayerConfiguration)
    requires WireFieldsAbsent(c)
    ensures EncodedParameters(c) == map[]
  {
    forall s | s in EncodedParameters(c) ensures false {
      FillAdds(c, map[], EncodingOrder, s);
      var k :| k in EncodingOrder && Payload(c, k).Some? && RawValue(k) == s;
      PayloadWithoutWireFields(c, k);
    }
  }

  /** The host-only flags never affect the output, whatever their values. */
  lemma HostOnlyFlagsIgnored(c: PlayerConfiguration, interaction: Option<bool>, pictureInPicture: Option<bool>)
    ensures EncodedParameters(c.(isUserInteractionEnabled := interaction,
                                 allowsPictureInPictureMediaPlayback := pictureInPicture))
         == EncodedParameters(c)
  {
    var c' := c.(isUserInteractionEnabled := interaction, allowsPictureInPictureMediaPlayback := pictureInPicture);
    EncodedCarriesPayloads(c);
    EncodedCarriesPayloads(c');
    forall k ensures Payload(c', k) == Payload(c, k) {
      PayloadIgnoresHostFlags(c, interaction, pictureInPicture, k);
    }
    SamePayloadsSameOutput(c', c, EncodedParameters(c'), EncodedParameters(c));
  }

  /** Every plain Bool field is sent as 0 or 1, never another number. */
  lemma BitKeysAreBinary(c: PlayerConfiguration, k: CodingKey)
    requires k in BitKeys
    ensures RawValue(k) in EncodedParameters(c) ==>
              EncodedParameters(c)[RawValue(k)] == Int(0) || EncodedParameters(c)[RawValue(k)] == Int(1)
  {
    EncodedAt(c, k);
  }

  /** Annotations are sent as 1 (shown) or 3 (hidden); 0 and 2 never occur. */
  lemma AnnotationPolicyValues(c: PlayerConfiguration)
    ensures RawValue(ShowAnnotations) in EncodedParameters(c) <==> c.showAnnotations.Some?
    ensures RawValue(ShowAnnotations) in EncodedParameters(c) ==>
              var v := EncodedParameters(c)[RawValue(ShowAnnotations)];
              (v == Int(1) || v == Int(3)) && (v == Int(1) <==> c.showAnnotations == Some(true))
  {
    EncodedAt(c, ShowAnnotations);
    PayloadOfAnnotations(c);
  }

  // Facts about single payloads, kept apart from the container so that each proof stays small.

  lemma ReservedPayloadAbsent(c: PlayerConfiguration, k: CodingKey)
    ensures k in ReservedKeys <==> k !in EncodingOrder
  {
  }

  lemma PayloadWithoutWireFields(c: PlayerConfiguration, k: CodingKey)
    requires WireFieldsAbsent(c)
    ensures Payload(c, k).None?
  {
  }

  lemma PayloadIgnoresHostFlags(c: PlayerConfiguration, interaction: Option<bool>, pictureInPicture: Option<bool>, k: CodingKey)
    ensures Payload(c.(isUserInteractionEnabled := interaction,
                       allowsPictureInPictureMediaPlayback := pictureInPicture), k) == Payload(c, k)
  {
  }

  lemma PayloadOfAnnotations(c: PlayerConfiguration)
    ensures Payload(c, ShowAnnotations).Some? <==> c.showAnnotations.Some?
    ensures Payload(c, ShowAnnotations).Some? ==>
              var v := Payload(c, ShowAnnotations).value;
              (v == Int(1) || v == Int(3)) && (v == Int(1) <==> c.showAnnotations == Some(true))
  {
  }

  /** A configuration whose payloads are three given keys' values is carried by the map of just those three. */
  lemma CarriesThree(c: PlayerConfiguration, k1: CodingKey, v1: WireValue, k2: CodingKey, v2: WireValue, k3: CodingKey, v3: WireValue)
    requires k1 != k2 && k1 != k3 && k2 != k3
    requires forall k :: Payload(c, k) == if k == k1 then Some(v1) else if k == k2 then Some(v2) else if k == k3 then Some(v3) else None
    ensures CarriesPayloads(c, map[RawValue(k1) := v1, RawValue(k2) := v2, RawValue(k3) := v3])
  {
    var m := map[RawValue(k1) := v1, RawValue(k2) := v2, RawValue(k3) := v3];
    forall k ensures RawValue(k) in m <==> Payload(c, k).Some?
      ensures RawValue(k) in m ==> m[RawValue(k)] == Payload(c, k).value
    {
      RawValueInjective(k, k1);
      RawValueInjective(k, k2);
      RawValueInjective(k, k3);
    }
    forall s | s in m ensures exists k :: RawValue(k) == s {
      if s == RawValue(k1) {
      } else if s == RawValue(k2) {
      } else {
        assert s == RawValue(k3);
      }
    }
  }

  /** A configuration whose only payload is one given key's value is carried by the map of just that key. */
  lemma CarriesOne(c: PlayerConfiguration, k1: CodingKey, v1: WireValue)
    requires forall k :: Payload(c, k) == if k == k1 then Some(v1) else None
    ensures CarriesPayloads(c, map[RawValue(k1) := v1])
  {
    var m := map[RawValue(k1) := v1];
    forall k ensures RawValue(k) in m <==> Payload(c, k).Some?
      ensures RawValue(k) in m ==> m[RawValue(k)] == Payload(c, k).value
    {
      RawValueInjective(k, k1);
    }
    forall s | s in m ensures exists k :: RawValue(k) == s {
      assert s == RawValue(k1);
    }
  }

  lemma AutoplayWindowPayloads(c: PlayerConfiguration, k: CodingKey)
    requires c == PlayerConfiguration(autoPlay := Some(true), startTime := Some(30), endTime := Some(90))
    ensures Payload(c, k) ==
              if k == AutoPlay then Some(Int(1)) else if k == StartTime then Some(Int(30))
              else if k == EndTime then Some(Int(90)) else None
  {
  }

  lemma AutoplayWindowCarried(c: PlayerConfiguration)
    requires c == PlayerConfiguration(autoPlay := Some(true), startTime := Some(30), endTime := Some(90))
    ensures CarriesPayloads(c, map[RawValue(AutoPlay) := Int(1), RawValue(StartTime) := Int(30), RawValue(EndTime) := Int(90)])
  {
    forall k {
      AutoplayWindowPayloads(c, k);
    }
    CarriesThree(c, AutoPlay, Int(1), StartTime, Int(30), EndTime, Int(90));
  }

  lemma HiddenAnnotationsPayloads(c: PlayerConfiguration, k: CodingKey)
    requires c == PlayerConfiguration(showAnnotations := Some(false))
    ensures Payload(c, k) == if k == ShowAnnotations then Some(Int(3)) else None
  {
  }

  lemma HiddenAnnotationsCarried(c: PlayerConfiguration)
    requires c == PlayerConfiguration(showAnnotations := Some(false))
    ensures CarriesPayloads(c, map[RawValue(ShowAnnotations) := Int(3)])
  {
    forall k {
      HiddenAnnotationsPayloads(c, k);
    }
    CarriesOne(c, ShowAnnotations, Int(3));
  }

  /** Autoplay with a start and an end time encodes to exactly those three parameters. */
  lemma AutoplayWindowExample(c: PlayerConfiguration)
    requires c == PlayerConfiguration(autoPlay := Some(true), startTime := Some(30), endTime := Some(90))
    ensures EncodedParameters(c) == map["autoplay" := Int(1), "start" := Int(30), "end" := Int(90)]
  {
    var expected := map[RawValue(AutoPlay) := Int(1), RawValue(StartTime) := Int(30), RawValue(EndTime) := Int(90)];
    AutoplayWindowCarried(c);
    EncodedCarriesPayloads(c);
    CarriesPayloadsUnique(c, EncodedParameters(c), expected);
  }

  /** Hidden annotations, and nothing else set, encode to exactly `iv_load_policy: 3`. */
  lemma HiddenAnnotationsExample(c: PlayerConfiguration)
    requires c == PlayerConfiguration(showAnnotations := Some(false))
    ensures EncodedParameters(c) == map["iv_load_policy" := Int(3)]
  {
    var expected := map[RawValue(ShowAnnotations) := Int(3)];
    HiddenAnnotationsCarried(c);
    EncodedCarriesPayloads(c);
    CarriesPayloadsUnique(c, EncodedParameters(c), expected);
  }
}
