# DictionaryCoding in Dafny

A model of the core of DictionaryCoding, a Swift library. The library converts
`Codable` values to and from Foundation dictionaries (`[String: Any]`,
`NSDictionary`). It is a copy of Foundation's `JSONEncoder` and
`JSONDecoder` with the serialisation step removed. Both directions are stack
machines over a loosely typed value tree. The tree's nodes are null, booleans,
numbers, strings, URLs, UUIDs, arrays and string-keyed maps.

The model has these parts:

- **The value tree and typed values** (`Values`, `Targets`).
  - User-written `init(from:)`/`encode(to:)` logic is a small schema the engine interprets:
    - a record reads or writes its fields in order through a keyed container;
    - an array uses an unkeyed container;
    - a silent type touches nothing.
  - `Date`, `Data`, `UUID`, `URL` and `Decimal` get the special handling the engines give them.
- **Coercion rules** (`Coercions`). These are the `unbox(_:as:)` overloads: when a tree node can stand for a requested primitive, and what it converts to.
- **The decoding engine.** It consists of:
  - the container stack (`DecodingStorage`);
  - the internal decoder with its container selection and error builders (`Decoding`);
  - the keyed and unkeyed decoding containers (`KeyedDecoding`, `UnkeyedDecoding`);
  - the generic dispatcher `unbox<T>`, which re-enters the engine for nested values (`DecodeEngine`);
  - the public `DictionaryDecoder` (`DictionaryDecoding`).
- **The encoding engine.** It consists of:
  - the container stack plus a heap of mutable containers addressed by id, which replaces the shared `NSMutableDictionary`/`NSMutableArray` objects (`EncodingStorage`, `EncodedTrees`);
  - the internal encoder and its `canEncodeNewValue` rule (`Encoding`);
  - the keyed, unkeyed and single-value containers (`Encoding`, `EncodingContainers`);
  - `box`/`box_` with its depth restoration (`EncodeEngine`);
  - the referencing encoder used by `superEncoder` (`ReferencingEncoding`);
  - the public `DictionaryEncoder` (`DictionaryEncoding`).
- **The error model** (`Errors`). It holds:
  - `ErrorReason` and its `type` projection;
  - `DecodingError.context`;
  - `DecodingError.Context.type`.

Each operation is paired with an independent reference:

- **Encoding.** `EncodedForm.TreeOf` states by structural recursion which tree a value should encode to. The stack machine is proved to build exactly that tree, and to fail exactly when a non-finite float meets the `throw` strategy.
- **Decoding.** The decoder is proved to read that tree back as the original value (`RoundTrip.EncodeDecodeRoundTrip`).
- **The top level.** One source defect is recorded under Findings.

Every decoding call is a pure function. It returns a result together with the decoder state after the call, so that:

- the statement "the stack and coding path are restored on every exit" is an `ensures s.decoder == d`;
- the statement "the cursor moves only on success" relates the returned container to the input one.

Source paths below are relative to the repository root.

## Model

| member | source | states |
|---|---|---|
| DecodingStorage.Empty | Sources/DictionaryCoding/Decoder/_DictionaryDecodingStorage.swift:11 | a freshly initialised decoding stack holds no containers |
| DecodingStorage.Storage.Top | Sources/DictionaryCoding/Decoder/_DictionaryDecodingStorage.swift:18-21 | the top container is one of the stacked containers; reading it needs a non-empty stack |
| DecodingStorage.Storage.Push | Sources/DictionaryCoding/Decoder/_DictionaryDecodingStorage.swift:23-25 | push adds exactly one container, which becomes the top, and keeps every container below it |
| DecodingStorage.Storage.Pop | Sources/DictionaryCoding/Decoder/_DictionaryDecodingStorage.swift:27-30 | pop needs a non-empty stack, removes one container and leaves the lower entries unchanged |
| DecodingStorage.PushPopRestores | Sources/DictionaryCoding/Decoder/_DictionaryDecodingStorage.swift:23-30 | a push followed by a pop gives back exactly the original stack |
| Decoding.NewDecoder | Sources/DictionaryCoding/Decoder/_DictionaryDecoder.swift:21-26 | after init the stack holds exactly the given node, and the path and options are the given ones |
| Decoding.Enter | Sources/DictionaryCoding/Decoder/DictionaryCodingKeyedDecodingContainer.swift:82-83 | appending a key to the decoder path leaves its stack and options unchanged |
| Decoding.Leave | Sources/DictionaryCoding/Decoder/DictionaryCodingKeyedDecodingContainer.swift:82-83 | removeLast drops exactly the last key; it needs a non-empty path |
| Decoding.EnterLeave | Sources/DictionaryCoding/Decoder/DictionaryCodingKeyedDecodingContainer.swift:82-83 | the deferred removeLast after an append restores the decoder exactly |
| Decoding.ValueNotFoundHere | Sources/DictionaryCoding/Decoder/_DictionaryDecoder.swift:72-79 | a valueNotFound error for the given type at the decoder's current path, with no reason |
| Decoding.NullForKeyedContainer | Sources/DictionaryCoding/Decoder/_DictionaryDecoder.swift:81-88 | valueNotFound for the keyed container type at the current path, with reason valueNotFoundInKeyedContainer(key type) |
| Decoding.NullForUnkeyedContainer | Sources/DictionaryCoding/Decoder/_DictionaryDecoder.swift:90-97 | valueNotFound for the unkeyed container type at the current path, with no reason |
| Decoding.KeyedContainerOf | Sources/DictionaryCoding/Decoder/_DictionaryDecoder.swift:29-41 | on a null top: the keyed-null error; on a map: a container over that map at the decoder's path; on anything else: a dictionary type mismatch at that path |
| Decoding.UnkeyedContainerOf | Sources/DictionaryCoding/Decoder/_DictionaryDecoder.swift:43-53 | on a null top: the unkeyed-null error; on an array: a container over it with cursor 0; on anything else: an array type mismatch |
| Decoding.SingleValueDecode | Sources/DictionaryCoding/Decoder/_DictionaryDecoder.swift:55-57 | the single-value container reads the same top node: null is valueNotFound at the current path, anything else is coerced by the primitive's overload, and a success has the requested type |
| Errors.ErrorReason.Type | Sources/DictionaryCoding/Decoder/ErrorReason.swift:10-23 | type is absent exactly for valueNotFound and typeMismatch, and otherwise is the carried type |
| Errors.Context.Type | Sources/DictionaryCoding/Decoder/DecodingErrorContext+type.swift:4-6 | the type is absent unless the underlying error is an ErrorReason, in which case it is that reason's type |
| Errors.DecodingError.ContextOf | Sources/DictionaryCoding/Decoder/DecodingError+context.swift:4-17 | every known case gives back its own context; only an unknown case gives none |
| Errors.TypeIgnoresPathAndDescription | Sources/DictionaryCoding/Decoder/DecodingErrorContext+type.swift:5 | two contexts with the same underlying error have the same type, whatever their paths and descriptions |
| Coercions.Corrupted | Sources/DictionaryCoding/Decoder/_DictionaryDecoder.swift:63-70 | a dataCorrupted error at the given path whose reason is dataCorrupted(value, type), so its context's type is that type |
| Coercions.UnboxBool | Sources/DictionaryCoding/Decoder/_DictionaryDecoder+unbox.swift:6-27 | null is absent; a boolean gives its flag; any other number gives n != 0; anything else is a Bool type mismatch at the path |
| Values.Trunc | Sources/DictionaryCoding/Decoder/_DictionaryDecoder+unbox.swift:36 | converting a number to an integer rounds toward zero: the result is within one below a non-negative number and within one above a negative one, and an integral number converts to itself |
| Values.IntType.Wrap | Sources/DictionaryCoding/Decoder/_DictionaryDecoder+unbox.swift:36 | the fixed-width conversion always gives a value of the type, and a value already in range is unchanged |
| Coercions.Narrow | Sources/DictionaryCoding/Decoder/_DictionaryDecoder+unbox.swift:36-41 | `intValue` followed by the `NSNumber(value:) == number` check: a narrowed result is a finite number's exact value and lies in the type's range, and every finite integral number in range narrows to itself |
| Coercions.NarrowExact | Sources/DictionaryCoding/Decoder/_DictionaryDecoder+unbox.swift:36-43 | narrowing plus the equality check succeeds exactly for finite integral numbers in the type's range, and then returns the number unchanged |
| Coercions.UnboxInt | Sources/DictionaryCoding/Decoder/_DictionaryDecoder+unbox.swift:29-194 | null is absent; booleans and non-numbers are a type mismatch; a number the type holds exactly gives that integer; any other number is dataCorrupted carrying the node and the type |
| Coercions.IntOverloadExact | Sources/DictionaryCoding/Decoder/_DictionaryDecoder+unbox.swift:29-194 | an integer overload yields n exactly when the node is a plain number equal to n and n is in the type's range |
| Coercions.FromSentinel | Sources/DictionaryCoding/Decoder/_DictionaryDecoder+unbox.swift:228-237 | under convertFromString the three strings map to +inf, -inf and NaN, checked in that order; other strings, and every string under throw, give nothing |
| Coercions.UnboxFloat | Sources/DictionaryCoding/Decoder/_DictionaryDecoder+unbox.swift:196-240 | null is absent; a plain number is accepted exactly when its magnitude is at most Float's largest finite value, else dataCorrupted; sentinel strings convert; anything else is a type mismatch |
| Coercions.UnboxDouble | Sources/DictionaryCoding/Decoder/_DictionaryDecoder+unbox.swift:242-274 | null is absent; every plain number is accepted; sentinel strings convert; booleans and other values are a type mismatch |
| Coercions.SentinelsRoundTrip | Sources/DictionaryCoding/Decoder/_DictionaryDecoder+unbox.swift:242-274 | with three distinct sentinels, exactly those strings decode as a Double, to +inf, -inf and NaN; every other string is a type mismatch |
| Coercions.UnboxString | Sources/DictionaryCoding/Decoder/_DictionaryDecoder+unbox.swift:276-292 | null is absent; strings pass through; URL and UUID nodes give their canonical strings; anything else is a String type mismatch |
| Coercions.ParseUuid | Sources/DictionaryCoding/Decoder/_DictionaryDecoder+unbox.swift:301-302 | a string parses as a UUID exactly when it has the 8-4-4-4-12 hexadecimal form, and its uuidString is the upper-case form |
| Coercions.UnboxUuid | Sources/DictionaryCoding/Decoder/_DictionaryDecoder+unbox.swift:294-313 | absent exactly for null or a malformed string (never an error for those); UUID nodes pass through; other nodes are a type mismatch |
| Coercions.ParseUrl | Sources/DictionaryCoding/Decoder/_DictionaryDecoder+unbox.swift:355 | a string parses as a URL exactly when it is non-empty and made of URL characters, and its absoluteString is the string |
| Coercions.UnboxUrl | Sources/DictionaryCoding/Decoder/_DictionaryDecoder+unbox.swift:350-361 | absent exactly when the node is null; a String failure passes through; a string that does not parse is dataCorrupted carrying the node and the URL type |
| Coercions.UnboxDecimal | Sources/DictionaryCoding/Decoder/_DictionaryDecoder+unbox.swift:331-341 | null is absent; decimal nodes pass through; anything else follows the Double rule, errors included |
| Coercions.UnboxPrim | Sources/DictionaryCoding/Decoder/_DictionaryDecoder+unbox.swift:6-292 | every primitive overload maps null, and only null, to absent; a value it returns has the requested type; every error carries the current path |
| KeyedDecoding.KeyNotFoundHere | Sources/DictionaryCoding/Decoder/DictionaryCodingKeyedDecodingContainer.swift:147-154 | keyNotFound for the key at the decoder's live path, with reason keyNotFound(type) |
| KeyedDecoding.KeyNotFoundForNil | Sources/DictionaryCoding/Decoder/DictionaryCodingKeyedDecodingContainer.swift:156-163 | keyNotFound for the key at the decoder's path, with no reason |
| KeyedDecoding.Contains | Sources/DictionaryCoding/Decoder/DictionaryCodingKeyedDecodingContainer.swift:34-36 | contains holds exactly when the map has an entry for the key, a null entry included |
| KeyedDecoding.DecodeNil | Sources/DictionaryCoding/Decoder/DictionaryCodingKeyedDecodingContainer.swift:60-66 | a missing key is keyNotFound with no reason; a present key answers whether its entry is null |
| KeyedDecoding.NestedKeyedContainer | Sources/DictionaryCoding/Decoder/DictionaryCodingKeyedDecodingContainer.swift:92-108 | missing key: keyNotFound at path+key; non-map (null included): type mismatch at the container's path; map: a container at path+key; the decoder is restored |
| KeyedDecoding.NestedUnkeyedContainer | Sources/DictionaryCoding/Decoder/DictionaryCodingKeyedDecodingContainer.swift:110-125 | the same for an array, with the missing-key reason naming the outer keyed container type |
| KeyedDecoding.SuperDecoderAt | Sources/DictionaryCoding/Decoder/DictionaryCodingKeyedDecodingContainer.swift:127-133 | never fails; gives a fresh decoder over the entry (null when missing) at path+key with the same options; the decoder is restored |
| KeyedDecoding.SuperDecoder | Sources/DictionaryCoding/Decoder/DictionaryCodingKeyedDecodingContainer.swift:135-137 | the super decoder reads the entry under the reserved super key, at path+super |
| KeyedDecoding.SuperDecoderForKey | Sources/DictionaryCoding/Decoder/DictionaryCodingKeyedDecodingContainer.swift:139-141 | for a missing key the decoder is over null, otherwise over the entry, at path+key |
| Decoding.UnkeyedContainer.IsAtEnd | Sources/DictionaryCoding/Decoder/_DictionaryUnkeyedDecodingContainer.swift:31-33 | the container is at its end exactly when the cursor has reached the element count; before that the current element exists |
| UnkeyedDecoding.Advance | Sources/DictionaryCoding/Decoder/_DictionaryUnkeyedDecodingContainer.swift:43 | `currentIndex += 1`: the cursor moves one element on, and the elements and path stay as they were |
| UnkeyedDecoding.NotFoundAt | Sources/DictionaryCoding/Decoder/_DictionaryUnkeyedDecodingContainer.swift:420-427 | valueNotFound for the type at exactly the given path, with no reason |
| UnkeyedDecoding.DecodeNil | Sources/DictionaryCoding/Decoder/_DictionaryUnkeyedDecodingContainer.swift:35-48 | at the end: valueNotFound at path+index, cursor kept; a null element gives true and advances; any other element gives false and stays |
| UnkeyedDecoding.DecodePrim | Sources/DictionaryCoding/Decoder/_DictionaryUnkeyedDecodingContainer.swift:50-328 | the cursor advances by one exactly on success; at the end the error path is path+index; a null element's error path has the index twice; the decoder path is restored |
| UnkeyedDecoding.NestedKeyedContainer | Sources/DictionaryCoding/Decoder/_DictionaryUnkeyedDecodingContainer.swift:350-374 | at the end or on null: valueNotFound at the container's path; non-map: type mismatch; map: a container at path+index, and the cursor advances exactly then |
| UnkeyedDecoding.NestedUnkeyedContainer | Sources/DictionaryCoding/Decoder/_DictionaryUnkeyedDecodingContainer.swift:376-399 | the same for an array element |
| UnkeyedDecoding.SuperDecoder | Sources/DictionaryCoding/Decoder/_DictionaryUnkeyedDecodingContainer.swift:401-414 | fails exactly at the end; otherwise advances by one and gives a decoder over the element, null included, at path+index |
| DecodeEngine.PushNode | Sources/DictionaryCoding/Decoder/_DictionaryDecoder+unbox.swift:365 | pushing a node makes it the top and grows the stack by one, with path and options unchanged |
| DecodeEngine.PopNode | Sources/DictionaryCoding/Decoder/_DictionaryDecoder+unbox.swift:366 | popping shrinks the stack by one, with path and options unchanged |
| DecodeEngine.PushPopNode | Sources/DictionaryCoding/Decoder/_DictionaryDecoder+unbox.swift:365-367 | the deferred pop after a push restores the decoder exactly |
| DecodeEngine.Unbox | Sources/DictionaryCoding/Decoder/_DictionaryDecoder+unbox.swift:343-369 | the decoder is restored on every exit; a returned value has the requested type; absent only for null or a malformed UUID string; a null node of a special-cased Foundation type is absent |
| DecodeEngine.Init | Sources/DictionaryCoding/Decoder/_DictionaryDecoder+unbox.swift:315-329 | running init(from:) on the pushed node leaves the decoder as it was, and a success has the requested type |
| DecodeEngine.DecodeFields | Sources/DictionaryCoding/Decoder/DictionaryCodingKeyedDecodingContainer.swift:68-90 | decoding a record's fields in order yields values for all declared fields with the declared keys and types, extending those already read |
| DecodeEngine.KeyedDecode | Sources/DictionaryCoding/Decoder/DictionaryCodingKeyedDecodingContainer.swift:68-90 | missing key under throw: keyNotFound(type) at the path without the key; under useDefault: the provider's value if it has the type, its error if it throws, else keyNotFound; present key: decoded at path+key, and absent there is keyNotFound at path+key |
| DecodeEngine.UnkeyedDecode | Sources/DictionaryCoding/Decoder/_DictionaryUnkeyedDecodingContainer.swift:330-348 | at the end: valueNotFound at path+index; otherwise decoded at path+index, absent is valueNotFound with the index twice, and the cursor advances exactly on success |
| DecodeEngine.DecodeElements | Sources/DictionaryCoding/Decoder/_DictionaryUnkeyedDecodingContainer.swift:27-33 | decoding until isAtEnd yields one value of the element type per remaining element, after those already read, and ends at the end |
| DecodeEngine.ByteStep | Sources/DictionaryCoding/Decoder/_DictionaryUnkeyedDecodingContainer.swift:190-208 | the UInt8 overload accepts an element exactly when it is a number holding a byte, and yields that byte |
| DecodeEngine.DecodeBytes | Sources/DictionaryCoding/Decoder/_DictionaryDecoder+unbox.swift:323-329 | Data decoding succeeds exactly when every remaining element is a byte, and yields their values in order |
| DecodeFacts.PrimViaDispatcher | Sources/DictionaryCoding/Decoder/_DictionaryDecoder+unbox.swift:364-368 | a primitive reached through the generic dispatcher meets the single-value container: null is valueNotFound, anything else is coerced as the primitive's overload does |
| DecodeFacts.UuidViaCoercions | Sources/DictionaryCoding/Decoder/_DictionaryDecoder+unbox.swift:348-349 | the dispatcher answers a UUID target by the UUID rule, with no node pushed |
| DecodeFacts.UrlViaCoercions | Sources/DictionaryCoding/Decoder/_DictionaryDecoder+unbox.swift:350-361 | the dispatcher answers a URL target by the URL rule |
| DecodeFacts.DecimalViaCoercions | Sources/DictionaryCoding/Decoder/_DictionaryDecoder+unbox.swift:362-363 | the dispatcher answers a Decimal target by the Decimal rule under the decoder's strategy |
| DecodeFacts.DateViaDouble | Sources/DictionaryCoding/Decoder/_DictionaryDecoder+unbox.swift:315-321 | a non-null Date node decodes as a Double through the single-value container, errors included |
| DecodeFacts.DataFromBytes | Sources/DictionaryCoding/Decoder/_DictionaryDecoder+unbox.swift:323-329 | Data needs an array node (else an array type mismatch) and succeeds exactly when every element is a byte, keeping their order |
| DecodeFacts.UnboxRunsInit | Sources/DictionaryCoding/Decoder/_DictionaryDecoder+unbox.swift:364-368 | a target that runs init(from:) does so on the pushed node, and its error is passed through unchanged |
| DecodeFacts.RecordShape | Sources/DictionaryCoding/Decoder/_DictionaryDecoder.swift:29-41 | a record on a null node is the keyed-null valueNotFound; on any other non-map it is a dictionary type mismatch, at the current path |
| DecodeFacts.ArrayShape | Sources/DictionaryCoding/Decoder/_DictionaryDecoder.swift:43-53 | an array on a null node is the unkeyed-null valueNotFound; on any other non-array it is an array type mismatch |
| DecodeFacts.KeyedNullEntry | Sources/DictionaryCoding/Decoder/DictionaryCodingKeyedDecodingContainer.swift:85-87 | a present null entry is keyNotFound at path+key for the special-cased types, but valueNotFound at path+key for a primitive |
| DecodeFacts.GenericMatchesOverload | Sources/DictionaryCoding/Decoder/_DictionaryUnkeyedDecodingContainer.swift:330-348 | for a primitive, the generic decode and the concrete overload agree on non-null elements and at the end; on a null element the path has the index once in one and twice in the other |
| DictionaryDecoding.NoTopLevelValue | Sources/DictionaryCoding/Decoder/DictionaryDecoder.swift:120-127 | valueNotFound for the type at the empty path, with reason valueNotFound(dictionary) holding the input |
| DictionaryDecoding.Decode | Sources/DictionaryCoding/Decoder/DictionaryDecoder.swift:86-95 | decoding starts an engine over just the root at the empty path, passes its errors through, and returns only values of the requested type |
| DictionaryDecoding.RootNeverAbsent | Sources/DictionaryCoding/Decoder/DictionaryDecoder.swift:88-91 | the dispatcher never answers absent for a root map, so the top-level valueNotFound branch cannot be reached |
| DictionaryDecoding.MissingTopLevelKey | Sources/DictionaryCoding/Decoder/DictionaryDecoder.swift:104-113 | under the default settings a record whose key is missing from the root fails with keyNotFound for that key at the empty path |
| Options.DefaultDecoderSettings | Sources/DictionaryCoding/Decoder/DictionaryDecoder.swift:51-57 | both decoding strategies default to throw, and userInfo is empty |
| Options.DecodeSnapshot | Sources/DictionaryCoding/Decoder/DictionaryDecoder.swift:67-71 | the options snapshot copies both strategies and userInfo unchanged |
| Options.Provide | Sources/DictionaryCoding/Decoder/DictionaryCodingKeyedDecodingContainer.swift:72 | calling the provider with a type gives the table's answer for it, and a type it does not list gives something that is no typed value |
| Options.DefaultEncoderSettings | Sources/DictionaryCoding/Encoder/DictionaryEncoder.swift:41-45 | the float encoding strategy defaults to throw, and userInfo is empty |
| Options.EncodeSnapshot | Sources/DictionaryCoding/Encoder/DictionaryEncoder.swift:54-57 | the encoder options snapshot copies the strategy and userInfo unchanged |
| EncodingStorage.EmptyStorage | Sources/DictionaryCoding/Encoder/DictionaryEncoder.swift:203 | a fresh encoding stack is empty |
| EncodingStorage.Storage.Push | Sources/DictionaryCoding/Encoder/DictionaryEncoder.swift:222-224 | push adds one item on top and keeps the rest |
| EncodingStorage.Storage.Pop | Sources/DictionaryCoding/Encoder/DictionaryEncoder.swift:226-229 | popContainer needs a non-empty stack and removes exactly the top item |
| EncodingStorage.PushPop | Sources/DictionaryCoding/Encoder/DictionaryEncoder.swift:222-229 | a push followed by a pop restores the stack exactly |
| EncodingStorage.Heap.Alloc | Sources/DictionaryCoding/Encoder/DictionaryEncoder.swift:210-220 | a new empty container gets a fresh id, and every existing container is kept |
| EncodingStorage.Heap.SetEntry | Sources/DictionaryCoding/Encoder/DictionaryEncoder.swift:255-257 | assigning a key changes only that entry of that map; every other container is untouched |
| EncodingStorage.Heap.Append | Sources/DictionaryCoding/Encoder/DictionaryEncoder.swift:369 | add appends one item to that array only |
| EncodingStorage.Heap.Insert | Sources/DictionaryCoding/Encoder/DictionaryEncoder.swift:698-699 | insert(at:) places the item at the index, shifting the rest; the index must be at most the length |
| EncodedTrees.SetEntryResolves | Sources/DictionaryCoding/Encoder/DictionaryEncoder.swift:255-257 | the finished tree of the written map differs exactly in the assigned key |
| EncodedTrees.AppendResolves | Sources/DictionaryCoding/Encoder/DictionaryEncoder.swift:369 | the finished tree of the array gains the item's tree at its end |
| EncodedTrees.InsertResolves | Sources/DictionaryCoding/Encoder/DictionaryEncoder.swift:698-699 | the finished tree of the array gains the item's tree at the index |
| Encoding.NewEncoder | Sources/DictionaryCoding/Encoder/DictionaryEncoder.swift:134-138 | a fresh encoder has an empty stack and an empty path, so it can encode a new value |
| Encoding.Encoder.CanEncodeNewValue | Sources/DictionaryCoding/Encoder/DictionaryEncoder.swift:143-151 | a plain encoder can start a value exactly when its stack and path have the same length; a referencing encoder, as in its override at lines 680-685, exactly when its stack count equals its path length less the parent's path and the slot's key |
| Encoding.NewValueOncePerPath | Sources/DictionaryCoding/Encoder/DictionaryEncoder.swift:143-151 | once a value has pushed its container no second value can start at that path, and one more key on the path makes room for the next one |
| Encoding.Enter | Sources/DictionaryCoding/Encoder/DictionaryEncoder.swift:143-151 | appending a key makes a new value encodable exactly when one container is open at the current path |
| Encoding.KeyedContainer | Sources/DictionaryCoding/Encoder/DictionaryEncoder.swift:154-170 | when canEncodeNewValue holds, one new empty map is pushed; otherwise the map on top is reused with nothing changed (any other top is a precondition failure) |
| Encoding.UnkeyedContainer | Sources/DictionaryCoding/Encoder/DictionaryEncoder.swift:172-187 | the same for an array |
| Encoding.BoxFloating | Sources/DictionaryCoding/Encoder/DictionaryEncoder.swift:531-569 | success exactly for finite values or under convertToString; infinities and NaN become the strategy's strings; otherwise invalidValue at the current path |
| Encoding.BoxPrim | Sources/DictionaryCoding/Encoder/DictionaryEncoder.swift:518-569 | Bool, the integers and String always box to their trees; Float and Double fail only when not conforming, with the float error |
| Encoding.SingleEncodeNil | Sources/DictionaryCoding/Encoder/DictionaryEncoder.swift:434-437 | needs canEncodeNewValue and pushes exactly one null |
| Encoding.SingleEncode | Sources/DictionaryCoding/Encoder/DictionaryEncoder.swift:439-507 | needs canEncodeNewValue; pushes exactly one boxed value, after which no new value can be encoded; or fails with the float error |
| EncodingContainers.KeyedEncodeNil | Sources/DictionaryCoding/Encoder/DictionaryEncoder.swift:255-257 | the container's map gains null under the key, and no other container changes |
| EncodingContainers.KeyedEncode | Sources/DictionaryCoding/Encoder/DictionaryEncoder.swift:258-307 | sets only the key, overwriting it, to the value's tree; a failure leaves the heap as it was and reports the path with the key; the encoder path is restored |
| EncodingContainers.KeyedNestedKeyed | Sources/DictionaryCoding/Encoder/DictionaryEncoder.swift:315-324 | a new empty map is stored under the key, and the nested container's path is the container's path plus the key |
| EncodingContainers.KeyedNestedUnkeyed | Sources/DictionaryCoding/Encoder/DictionaryEncoder.swift:326-333 | a new empty array is stored under the key, with the path extended by the key |
| EncodingContainers.SuperEncoderAt | Sources/DictionaryCoding/Encoder/DictionaryEncoder.swift:670-677 | a referencing encoder for the map slot, with an empty stack, the parent's path plus the key and the parent's options; it can encode a new value |
| EncodingContainers.KeyedSuperEncoder | Sources/DictionaryCoding/Encoder/DictionaryEncoder.swift:335-337 | the referencing encoder writes under the reserved super key |
| EncodingContainers.KeyedSuperEncoderForKey | Sources/DictionaryCoding/Encoder/DictionaryEncoder.swift:339-341 | the referencing encoder writes under the given key |
| EncodingContainers.UnkeyedEncodeNil | Sources/DictionaryCoding/Encoder/DictionaryEncoder.swift:369 | the array gains null at its end, and its count grows by one |
| EncodingContainers.UnkeyedEncode | Sources/DictionaryCoding/Encoder/DictionaryEncoder.swift:370-395 | appends the value's tree at the end; a failure leaves the heap as it was and reports the path with the index equal to the count before the append |
| EncodingContainers.UnkeyedNestedKeyed | Sources/DictionaryCoding/Encoder/DictionaryEncoder.swift:403-412 | a new empty map is appended, and the nested path ends with the index it took |
| EncodingContainers.UnkeyedNestedUnkeyed | Sources/DictionaryCoding/Encoder/DictionaryEncoder.swift:414-421 | a new empty array is appended, and the nested path ends with the index it took |
| EncodingContainers.UnkeyedSuperEncoder | Sources/DictionaryCoding/Encoder/DictionaryEncoder.swift:423-425 | a referencing encoder for the array's current count, at the parent's path plus that index |
| EncodeEngine.KeyedEncodeValue | Sources/DictionaryCoding/Encoder/DictionaryEncoder.swift:309-313 | the generic encode stores exactly the value's tree under the key, and succeeds exactly for encodable values; the encoder is restored |
| EncodeEngine.UnkeyedEncodeValue | Sources/DictionaryCoding/Encoder/DictionaryEncoder.swift:397-401 | the generic encode appends exactly the value's tree; a failure reports a path at or below the index the element would take |
| EncodeEngine.Box | Sources/DictionaryCoding/Encoder/DictionaryEncoder.swift:596-598 | box yields an item whose tree is the value's tree (an empty map for a value that wrote nothing), and the encoder and old containers are unchanged |
| EncodeEngine.BoxOrNothing | Sources/DictionaryCoding/Encoder/DictionaryEncoder.swift:601-635 | box_ restores the stack depth on success and on failure; it answers nil exactly for a value that wrote nothing, otherwise an item for the value's tree; it fails exactly with the float error |
| EncodeEngine.Unwind | Sources/DictionaryCoding/Encoder/DictionaryEncoder.swift:571-634 | after encode(to:), the Date, Data and generic branches pop what was pushed, on success and on error, and nothing pushed means nil |
| EncodeEngine.EncodeWith | Sources/DictionaryCoding/Encoder/DictionaryEncoder.swift:617-619 | running encode(to:) pushes exactly one item for the value's tree (none for a silent value), or fails with the float error having pushed at most one container |
| EncodeEngine.EncodeData | Sources/DictionaryCoding/Encoder/DictionaryEncoder.swift:578-594 | Data writes an unkeyed container holding its bytes |
| EncodeEngine.EncodeRecord | Sources/DictionaryCoding/Encoder/DictionaryEncoder.swift:154-170 | a record writes one keyed container holding its fields' trees |
| EncodeEngine.EncodeArray | Sources/DictionaryCoding/Encoder/DictionaryEncoder.swift:172-187 | an array writes one unkeyed container holding its elements' trees |
| EncodeEngine.SingleStep | Sources/DictionaryCoding/Encoder/DictionaryEncoder.swift:439-507 | a single-value encode pushes exactly the boxed leaf, or fails with the float error leaving the encoder unchanged |
| EncodeEngine.EncodeFields | Sources/DictionaryCoding/Encoder/DictionaryEncoder.swift:258-313 | encoding the remaining fields makes the map the fields' map (later keys win), and fails exactly when some remaining field does not conform |
| EncodeEngine.EncodeElements | Sources/DictionaryCoding/Encoder/DictionaryEncoder.swift:397-401 | encoding the remaining elements makes the array the elements' trees in order, and fails exactly when some remaining element does not conform |
| EncodeEngine.EncodeBytes | Sources/DictionaryCoding/Encoder/DictionaryEncoder.swift:377 | the UInt8 overload never fails, so the array ends up holding every byte in order |
| ReferencingEncoding.Finish | Sources/DictionaryCoding/Encoder/DictionaryEncoder.swift:689-704 | deinit writes once into the referenced slot: an empty map when nothing was encoded, else the one item; inserted at the index or stored under the key, touching no other container |
| ReferencingEncoding.FreshEncoderWrites | Sources/DictionaryCoding/Encoder/DictionaryEncoder.swift:680-685 | a value encoded on a fresh referencing encoder leaves at most one item, which stands for the value's tree, and leaves the parent's containers untouched |
| ReferencingEncoding.SuperEncoderForKeyWrites | Sources/DictionaryCoding/Encoder/DictionaryEncoder.swift:670-704 | after release, the keyed container's map gains exactly the value's tree under the key |
| ReferencingEncoding.UnkeyedSuperEncoderWrites | Sources/DictionaryCoding/Encoder/DictionaryEncoder.swift:661-704 | after release, the array gains exactly the value's tree at the index it had at creation |
| DictionaryEncoding.TopLevel | Sources/DictionaryCoding/Encoder/DictionaryEncoder.swift:71-75 | the top-level box on a fresh encoder throws only a float error or a top-level invalidValue at the empty path, and traps only in the as-written version |
| DictionaryEncoding.Settle | Sources/DictionaryCoding/Encoder/DictionaryEncoder.swift:76-85 | a map is returned as is; a null, number or string top is rejected with invalidValue at the empty path naming that guard; any other top traps on the forced cast (as written) or is rejected as not a dictionary (corrected) |
| DictionaryEncoding.EncodeAsWritten | Sources/DictionaryCoding/Encoder/DictionaryEncoder.swift:70-86 | as written, an encodable top-level array ends in a trap |
| DictionaryEncoding.Encode | Sources/DictionaryCoding/Encoder/DictionaryEncoder.swift:70-86 | the corrected top-level encode never traps |
| DictionaryEncoding.TopLevelSpec | Sources/DictionaryCoding/Encoder/DictionaryEncoder.swift:70-86 | top-level outcome: the float error exactly for non-conforming values, "did not encode any values" for a silent value, otherwise the fragment checks applied to the value's tree |
| DictionaryEncoding.TopLevelNotEncodable | Sources/DictionaryCoding/Encoder/DictionaryEncoder.swift:72 | a value with a non-conforming float throws invalidValue for that float |
| DictionaryEncoding.TopLevelEncodable | Sources/DictionaryCoding/Encoder/DictionaryEncoder.swift:72-75 | a conforming value never throws the float error; a silent one is "did not encode any values" |
| DictionaryEncoding.RecordEncodesToFields | Sources/DictionaryCoding/Encoder/DictionaryEncoder.swift:95-111 | an encodable record is returned as the map of its fields, and both versions agree on it |
| DictionaryEncoding.OnlyRecordsReturn | Sources/DictionaryCoding/Encoder/DictionaryEncoder.swift:70-86 | a dictionary comes back exactly for encodable records |
| DictionaryEncoding.AsWrittenDiffersOnlyByTrap | Sources/DictionaryCoding/Encoder/DictionaryEncoder.swift:85 | the written and the corrected encode agree except where the corrected one reports "not a dictionary", where the written one traps |
| DictionaryEncoding.SettleTrapOnly | Sources/DictionaryCoding/Encoder/DictionaryEncoder.swift:76-85 | the two settlings of a tree differ only for a non-map that passes the three guards |
| DictionaryEncoding.EmptyArrayAtTopLevel | Sources/DictionaryCoding/Encoder/DictionaryEncoder.swift:70-86 | an empty array under the default settings traps as written and is rejected once corrected |
| RoundTrip.RoundTripsEncodable | Sources/DictionaryCoding/Encoder/DictionaryEncoder.swift:531-569 | values that survive the round trip hold only finite floats, so every strategy encodes them |
| RoundTrip.FieldsTreeLookup | Sources/DictionaryCoding/Encoder/DictionaryEncoder.swift:309-313 | with distinct keys, every field's tree sits under its own key in the encoded map |
| RoundTrip.UnboxRoundTrip | Sources/DictionaryCoding/Decoder/_DictionaryDecoder+unbox.swift:343-369 | the dispatcher reads the encoder's tree of a value of type t back as that value |
| RoundTrip.PrimRoundTrip | Sources/DictionaryCoding/Decoder/_DictionaryDecoder+unbox.swift:6-292 | a primitive's boxed leaf is unboxed to the same primitive |
| RoundTrip.ConvertedRoundTrip | Sources/DictionaryCoding/Decoder/_DictionaryDecoder+unbox.swift:294-341 | UUIDs in canonical form, parsable URLs and Decimals come back unchanged |
| RoundTrip.DataRoundTrip | Sources/DictionaryCoding/Decoder/_DictionaryDecoder+unbox.swift:323-329 | the bytes of a Data come back in order |
| RoundTrip.RecordRoundTrip | Sources/DictionaryCoding/Decoder/DictionaryCodingKeyedDecodingContainer.swift:68-90 | a record comes back through a keyed container over its map |
| RoundTrip.FieldsRoundTrip | Sources/DictionaryCoding/Decoder/DictionaryCodingKeyedDecodingContainer.swift:68-90 | the remaining fields are decoded back, in order |
| RoundTrip.FieldRoundTrip | Sources/DictionaryCoding/Decoder/DictionaryCodingKeyedDecodingContainer.swift:68-90 | each field is decoded back from under its key |
| RoundTrip.ArrayRoundTrip | Sources/DictionaryCoding/Decoder/_DictionaryUnkeyedDecodingContainer.swift:330-348 | an array comes back through an unkeyed container over its elements |
| RoundTrip.ElementsRoundTrip | Sources/DictionaryCoding/Decoder/_DictionaryUnkeyedDecodingContainer.swift:330-348 | the elements from the cursor on are decoded back, in order |
| RoundTrip.ElementRoundTrip | Sources/DictionaryCoding/Decoder/_DictionaryUnkeyedDecodingContainer.swift:330-348 | the element under the cursor is decoded back and the cursor moves on by one |
| RoundTrip.EncodeDecodeRoundTrip | Sources/DictionaryCoding/Decoder/DictionaryDecoder.swift:104-113 | a record encoded by DictionaryEncoder and decoded as its own type by DictionaryDecoder comes back unchanged, whatever the settings of either side |

## Left out

- Floating point is reduced to classes: finite reals, the two infinities and NaN.
  - Float and Decimal rounding and precision loss are not modelled.
  - A Float is only range-checked against `Float.greatestFiniteMagnitude`.
  - `NSNumber` equality is exact real equality.
- Coercions.UnboxDecimal: a non-Decimal node goes through the Double rule and then `Decimal(_: Double)`, which traps on an infinite value. So an infinity sentinel read under `convertFromString` traps in the source. The model returns the infinity instead and does not promise the trap.
- `UUID(uuidString:)` and `URL(string:)` are concrete approximations.
  - A UUID is the 8-4-4-4-12 hexadecimal form, in either case.
  - A URL is a non-empty string of RFC 3986 characters that stands for itself.
  - The bridged `CFUUID` branch of the UUID overload is not modelled, because no tree node is a `CFUUID`.
- `userInfo` is carried but never read.
- `debugDescription` texts are carried as fixed strings.
- `allKeys` and `Key(stringValue:)` are not modelled. Keys are plain strings.
- The error-message formatting in `EncodingError+_invalidFloatingPointValue.swift` is reduced to a constructor carrying the value and the path.
- Decoding.SingleValueDecode: the single-value decoding container's `decode` methods are not part of this model's source. `singleValueContainer()` returns the decoder itself, and the methods are modelled after Foundation's `JSONDecoder`, from which this code is copied: null is `valueNotFound` at the current path, and anything else goes through the matching `unbox` overload.
- User `init(from:)`/`encode(to:)` logic is a fixed schema.
  - Records, arrays, silent types, `Date` (a Double interval) and `Data` (an array of `UInt8`) are modelled.
  - Arbitrary user code, or code requesting more than one container, is not modelled.
- The missing-value provider of `useDefault` is a finite table from types to answers.
- Options.Provide: the provider is a closure `(Any.Type) throws -> Any` that may throw any `Error`, and the keyed container rethrows it unchanged. Here it throws only a `DecodingError`, because the model has no other error type.
- Precondition failures (`preconditionFailure`, `fatalError`, forced casts, `removeLast` on an empty array) are `requires` clauses, not outcomes.
  - The one trap reachable through the public API is modelled as an outcome. It is listed under Findings.
- The two top-level `encode` overloads (`NSDictionary` and `[String: Any]`) behave identically and are modelled once, as `DictionaryEncoding.Encode`. The same holds for the two `decode` overloads, modelled as `DictionaryDecoding.Decode`.
- EncodeEngine.EncodeWith: values that push onto the stack require `canEncodeNewValue`. The case where `box_` is called while the top container could be reused is not modelled, because only user code that requests two containers reaches it.
- EncodeEngine.BoxOrNothing: `URL` and `Decimal` are intercepted before `encode(to:)`, as in the source. Their own `encode(to:)` is therefore not modelled.
- Encoding.Kind: the referencing encoder stores the length of its parent's path when it is created, instead of reading the parent's live path. The two agree while the parent is not nested deeper, which is how the source uses them.
- ReferencingEncoding.Finish: more than one item on the stack is a `fatalError` in the source. It is a precondition here.
- Timing: `deinit` timing becomes an explicit `Finish` call, and object identity becomes container ids in a heap.

## Findings

| source | as written | input that shows it | evidently intended | confidence | as-written member | corrected member |
|---|---|---|---|---|---|---|
| Sources/DictionaryCoding/Encoder/DictionaryEncoder.swift:70-86 | After the null, number and string guards, the top-level result is force-cast with `as! NSDictionary` (and `as! [String:Any]` at line 110). | Encoding an empty array (or any array, or a `Data`) at the top level with the default settings passes all three guards and traps on the cast. | A non-dictionary top-level result is rejected with `EncodingError.invalidValue`, like the other fragments. | not executed | DictionaryEncoding.EncodeAsWritten (shown by DictionaryEncoding.EmptyArrayAtTopLevel) | DictionaryEncoding.Encode |
