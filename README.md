# YouTubePlayerKit core: player configuration encoder and playlist identifier

This project models two pieces of logic from YouTubePlayerKit, a Swift wrapper around the YouTube IFrame player, and proves what they promise.

- **`YouTubePlayer.Configuration`** (module `Configuration`, `configuration.dfy`). A record of 19 independently optional player options. `encode(to:)` turns it into the sparse keyed parameter set that the IFrame player reads.
  - The configuration is a datatype whose constructor has every field default to `None`. That constructor is the memberwise initialiser.
  - `init(configure:)` is the method `InitConfigure`. The `inout` closure becomes a function from the old value to the new one.
  - `encode(to:)` is `EncodedParameters`: the source's seventeen `encodeIfPresent` calls (`Fill` over `EncodingOrder`), in source order, starting from an empty container. Each call writes its key as the key's string value (`RawValue`).
  - The key strings appear once, in `RawValue` (the `CodingKeys` table). Lemmas name a key as `RawValue(K)`.
  - What each call stores is `Payload`. Optional chaining (`field?.bit`) is one small function per kind of field (`BitValue`, `AnnotationValue`, `IntValue`, `StrValue`, `ColorValue`). Bools go through `Bit` (1/0). `showAnnotations` goes through `AnnotationPolicy` (1/3). Integers, strings and the colour pass through unchanged.
- **`YouTubePlayer.Source.PlaylistID`** (module `PlaylistIdentifier`, `playlist_id.dfy`). Either a playlist id or an ordered list of video ids. The model covers:
  - building one from a raw string (`FromString`), from a list (`FromVideos`) and from literals;
  - the per-variant wire form (`Encode`);
  - the lossy comma-joined identity key (`Id`).
- **Foundation's `components(separatedBy:)` and `joined(separator:)`** (module `StringComponents`, `string_components.dfy`). These are `Split` and `Join` for a one-character separator. A string with n separators has n + 1 pieces, so `""` splits into `[""]`.
- **`Option`** (module `Wrappers`, `wrappers.dfy`) stands for Swift's `Optional`.

## Model

| member | source | states |
|---|---|---|
| `Configuration.InitConfigure` | Sources/Configuration/YouTubePlayer+Configuration.swift:147-156 | the result is the closure applied to the configuration with nothing set; with a closure that changes nothing, every field, host-only ones included, is absent (the memberwise initialiser with no arguments) |
| `Configuration.RawValue` | Sources/Configuration/YouTubePlayer+Configuration.swift:166-187 | every coding key has a non-empty string value (the table itself; its inverse and injectivity are the next rows) |
| `Configuration.KeyFor` | Sources/Configuration/YouTubePlayer+Configuration.swift:166-187 | `CodingKeys(rawValue:)`: a string that names a key names the key whose string value it is |
| `Configuration.KeyForRawValue` | Sources/Configuration/YouTubePlayer+Configuration.swift:166-187 | every coding key is recovered from its string value, so the key table has an inverse |
| `Configuration.RawValueInjective` | Sources/Configuration/YouTubePlayer+Configuration.swift:166-187 | two coding keys share a string value only when they are the same key |
| `Configuration.Bit` | Sources/Configuration/YouTubePlayer+Configuration.swift:218-224 | a Bool's bit is 0 or 1, and it is 1 exactly for `true` |
| `Configuration.AnnotationPolicy` | Sources/Configuration/YouTubePlayer+Configuration.swift:205 | the annotations value is 1 or 3, and it is 1 exactly when annotations are shown |
| `Configuration.Payload` | Sources/Configuration/YouTubePlayer+Configuration.swift:195-211 | the value each call hands over: never one for `list`, `listType` or `origin`; 0 or 1 for the ten plain Bool keys; 1 or 3 for `showAnnotations` |
| `Configuration.EncodeIfPresent` | Sources/Configuration/YouTubePlayer+Configuration.swift:195-211 | a present value adds exactly its key's string value, holding that value, and an absent one adds nothing; every other entry keeps its value |
| `Configuration.Fill` | Sources/Configuration/YouTubePlayer+Configuration.swift:194-211 | a run of calls keeps every entry already in the container and adds no string other than the string value of one of its keys |
| `Configuration.EncodedParameters` | Sources/Configuration/YouTubePlayer+Configuration.swift:191-212 | every emitted parameter name is the string value of one of the seventeen keys the encoder writes |
| `Configuration.FillAt` | Sources/Configuration/YouTubePlayer+Configuration.swift:194-211 | for the string value of any coding key: a run of `encodeIfPresent` calls adds it exactly when the key is in the run and its payload is present, and it then holds that payload; if the key writes nothing, the entry already in the container keeps its value |
| `Configuration.FillKeeps` | Sources/Configuration/YouTubePlayer+Configuration.swift:194-211 | any entry of the container whose string no key of the run with a present payload writes is still there, with its value, after the run |
| `Configuration.FillAdds` | Sources/Configuration/YouTubePlayer+Configuration.swift:194-211 | a run of `encodeIfPresent` calls adds no entry other than the string value of a key in the run whose payload is present |
| `Configuration.EncodedAt` | Sources/Configuration/YouTubePlayer+Configuration.swift:191-212 | the output holds a key's string value exactly when that key's field is set, mapped to the field's encoded value |
| `Configuration.EncodedCarriesPayloads` | Sources/Configuration/YouTubePlayer+Configuration.swift:191-212 | the output has exactly one entry per set wire field, holding that field's encoded value, and holds no other string |
| `Configuration.CarriesPayloadsUnique` | Sources/Configuration/YouTubePlayer+Configuration.swift:191-212 | this description fixes the output map completely: two maps that both satisfy it are equal |
| `Configuration.WireTable` | Sources/Configuration/YouTubePlayer+Configuration.swift:166-211 | for each of the 17 wire fields, its key is present iff the field is set; Bools are 1/0, `showAnnotations` is 1/3, `startTime`/`endTime` and the three strings pass through unchanged, and the colour goes through as its token |
| `Configuration.EncodedKeys` | Sources/Configuration/YouTubePlayer+Configuration.swift:166-211 | every emitted key is the string value of a field key; the reserved `list`, `listType` and `origin` never appear |
| `Configuration.AbsentFieldsEncodeEmpty` | Sources/Configuration/YouTubePlayer+Configuration.swift:191-212 | a configuration with no wire field set encodes to the empty map, whatever its host-only flags |
| `Configuration.HostOnlyFlagsIgnored` | Sources/Configuration/YouTubePlayer+Configuration.swift:13-20 | changing `isUserInteractionEnabled` and `allowsPictureInPictureMediaPlayback` to any values leaves the output unchanged |
| `Configuration.BitKeysAreBinary` | Sources/Configuration/YouTubePlayer+Configuration.swift:195-209 | every plain Bool field that is emitted has the value 0 or 1 |
| `Configuration.AnnotationPolicyValues` | Sources/Configuration/YouTubePlayer+Configuration.swift:205 | `iv_load_policy` is emitted exactly when `showAnnotations` is set; it is then 1 or 3, never 0 or 2, and it is 1 exactly when `showAnnotations` is `true` |
| `Configuration.AutoplayWindowExample` | Sources/Configuration/YouTubePlayer+Configuration.swift:195-211 | the encoder turns autoplay on, start at 30 and end at 90 into exactly `autoplay: 1, start: 30, end: 90` |
| `Configuration.HiddenAnnotationsExample` | Sources/Configuration/YouTubePlayer+Configuration.swift:205 | the encoder turns `showAnnotations = false`, with nothing else set, into exactly `iv_load_policy: 3` |
| `StringComponents.Split` | Sources/Models/YouTubePlayer+Source+PlaylistID.swift:26 | there is always at least one piece; no piece contains the separator; there is more than one piece exactly when the string contains the separator; a separator-free string is its own single piece |
| `StringComponents.SplitCount` | Sources/Models/YouTubePlayer+Source+PlaylistID.swift:26 | the number of pieces is the number of separators plus one |
| `StringComponents.Join` | Sources/Models/YouTubePlayer+Source+PlaylistID.swift:107 | the empty list joins to `""` and a single string joins to itself: no leading or trailing separator |
| `StringComponents.JoinCount` | Sources/Models/YouTubePlayer+Source+PlaylistID.swift:107 | joining n ≥ 1 separator-free strings puts exactly n − 1 separators in the result |
| `StringComponents.JoinSplit` | Sources/Models/YouTubePlayer+Source+PlaylistID.swift:107 | joining the pieces of a string with the separator gives the string back |
| `StringComponents.SplitJoin` | Sources/Models/YouTubePlayer+Source+PlaylistID.swift:26 | splitting the join of a non-empty list of separator-free strings gives the list back |
| `PlaylistIdentifier.FromString` | Sources/Models/YouTubePlayer+Source+PlaylistID.swift:23-31 | the result is a video list exactly when the string contains a comma; that list is the string's comma-separated pieces, untrimmed, at least two of them, none containing a comma; otherwise it is a playlist holding the original string, `""` included |
| `PlaylistIdentifier.FromVideos` | Sources/Models/YouTubePlayer+Source+PlaylistID.swift:41-45 | a list always builds a video list holding that list, whatever its length |
| `PlaylistIdentifier.FromStringLiteral` | Sources/Models/YouTubePlayer+Source+PlaylistID.swift:55-59 | a string literal builds what `init(_: String)` builds |
| `PlaylistIdentifier.FromArrayLiteral` | Sources/Models/YouTubePlayer+Source+PlaylistID.swift:69-73 | an array literal builds what `init(_: [String])` builds |
| `PlaylistIdentifier.Encode` | Sources/Models/YouTubePlayer+Source+PlaylistID.swift:83-93 | a playlist is sent as a scalar holding its string; a video list is sent as an array holding the list itself, never as a scalar |
| `PlaylistIdentifier.EncodeInjective` | Sources/Models/YouTubePlayer+Source+PlaylistID.swift:83-93 | two identifiers have the same wire form exactly when they are equal |
| `PlaylistIdentifier.Id` | Sources/Models/YouTubePlayer+Source+PlaylistID.swift:102-109 | a playlist's key is its string; a video list's key starts with the first video id |
| `PlaylistIdentifier.IdCommaCount` | Sources/Models/YouTubePlayer+Source+PlaylistID.swift:102-109 | the key of n ≥ 1 comma-free video ids holds exactly n − 1 commas |
| `PlaylistIdentifier.IdOfFromString` | Sources/Models/YouTubePlayer+Source+PlaylistID.swift:102-109 | for every string, building an identifier from it and taking the identity key gives the string back |
| `PlaylistIdentifier.FromStringVideoCount` | Sources/Models/YouTubePlayer+Source+PlaylistID.swift:23-31 | a string with commas yields one more video id than it has commas |
| `PlaylistIdentifier.FromStringOfId` | Sources/Models/YouTubePlayer+Source+PlaylistID.swift:102-109 | re-parsing the identity key gives the identifier back for a comma-free playlist, and for a list of two or more comma-free video ids |
| `PlaylistIdentifier.SingleVideoIdCollides` | Sources/Models/YouTubePlayer+Source+PlaylistID.swift:41-45 | a one-element video list and the playlist of the same comma-free string differ but share an identity key, and re-parsing that key gives the playlist |
| `PlaylistIdentifier.EmptyListIsNotEmptyPlaylist` | Sources/Models/YouTubePlayer+Source+PlaylistID.swift:41-45 | the empty list builds the empty video list, the empty string builds the playlist `""`, and the two share the key `""` |
| `PlaylistIdentifier.ThreeVideosExample` | Sources/Models/YouTubePlayer+Source+PlaylistID.swift:23-31 | `"a,b,c"` builds the video list `["a", "b", "c"]`, is keyed by `"a,b,c"` and is sent as that array |

## Left out

- The `Encoder`, `KeyedEncodingContainer` and `singleValueContainer` machinery, and the `throws` on both `encode(to:)` functions, are left out. The model builds the keyed container as a map and the single value as a `PlaylistWire` value. `encodeIfPresent` is the function `EncodeIfPresent`.
- The `Color` type is not part of this model. It is a closed enumeration, `Red | White`, passed through unchanged as `ColorTok`. Its own string encoding is not modelled.
- `Hashable` and `Identifiable` conformance is left out, apart from the `id` property itself (`Id`).
- The web view host that reads `isUserInteractionEnabled` and `allowsPictureInPictureMediaPlayback` is left out. So are the transport that fills `list`, `listType` and `origin`, and the enclosing `YouTubePlayer` and `YouTubePlayer.Source` types.
- StringComponents.Split: strings are sequences of Unicode scalars, split at the scalar `,` and compared scalar by scalar. Swift's grapheme-cluster view of `String` (a `,` followed by a combining mark) and its canonical-equivalence `==` (precomposed and decomposed `é` are equal) are not modelled. `FromString`, `Id` and `EncodeInjective` inherit this.
- Configuration.InitConfigure: the closure is a pure function from the old configuration to the new one. Side effects that a Swift closure could have are not modelled.
