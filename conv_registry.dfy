/**
 * The converter's subplugins: external converters registered by name, the
 * custom callbacks registered for custom-code mode, the lookup of an
 * external converter for a media type, and the custom-mode parser of
 * parse_caps. The process-wide subplugin registry itself lives in a file
 * that is not part of this model; a registry table is a map from names to
 * entries, registering a name that is already present fails and
 * unregistering a name that is absent fails.
 */
module ConvRegistry {
  import opened Base
  import opened TensorTypes
  import opened ConvMedia

  /**
   * An external converter subplugin: its name, which of its callbacks are
   * present, and the structure names of the caps its query_caps returns.
   */
  datatype ExternalConverter = ExternalConverter(
    name: Option<string>,
    hasQueryCaps: bool,
    hasGetOutConfig: bool,
    hasConvert: bool,
    hasOpen: bool,
    capsNames: seq<string>)

  /** A custom-code callback and its user data, as opaque handles. */
  datatype CustomCallback = CustomCallback(func: nat, data: nat)

  /** The converter's mode property: none, custom-code or custom-script. */
  datatype ConverterMode = ModeNone | CustomCode | CustomScript

  /** EINVAL, returned negated by the custom-callback registration functions. */
  const EINVAL: int := 22

  /** register_subplugin on one subplugin table. */
  function RegisterSubplugin<T>(table: map<string, T>, name: string, entry: T): (r: (map<string, T>, bool))
    ensures r.1 <==> name !in table
    ensures r.1 ==> r.0 == table[name := entry]
    ensures !r.1 ==> r.0 == table
  {
    if name in table then (table, false) else (table[name := entry], true)
  }

  /** unregister_subplugin on one subplugin table. */
  function UnregisterSubplugin<T>(table: map<string, T>, name: string): (r: (map<string, T>, bool))
    ensures r.1 <==> name in table
    ensures name !in r.0 && forall n :: n in table && n != name ==> n in r.0 && r.0[n] == table[n]
    ensures forall n :: n in r.0 ==> n in table
  {
    if name in table then (table - {name}, true) else (table, false)
  }

  /** get_subplugin / nnstreamer_converter_find: the entry of a name, if registered. */
  function Lookup<T>(table: map<string, T>, name: string): (r: Option<T>)
    ensures r.Some? <==> name in table
    ensures r.Some? ==> r.value == table[name]
  {
    if name in table then Some(table[name]) else None
  }

  /**
   * nnstreamer_converter_validate: a converter with a name and all three
   * of query_caps, get_out_config and convert.
   */
  predicate Valid(ex: Option<ExternalConverter>) {
    ex.Some? && ex.value.name.Some? &&
    ex.value.hasQueryCaps && ex.value.hasGetOutConfig && ex.value.hasConvert
  }

  /** registerExternalConverter: validate, then register under the converter's name. */
  function RegisterExternal(table: map<string, ExternalConverter>, ex: Option<ExternalConverter>): (r: (map<string, ExternalConverter>, bool))
    ensures r.1 <==> Valid(ex) && ex.value.name.value !in table
    ensures r.1 ==> r.0 == table[ex.value.name.value := ex.value]
    ensures !r.1 ==> r.0 == table
  {
    if !Valid(ex) then (table, false) else RegisterSubplugin(table, ex.value.name.value, ex.value)
  }

  /** unregisterExternalConverter. */
  function UnregisterExternal(table: map<string, ExternalConverter>, name: string): (r: map<string, ExternalConverter>)
    ensures name !in r && forall n :: n in r <==> n in table && n != name
  {
    UnregisterSubplugin(table, name).0
  }

  /** Every converter in a table is valid. */
  predicate AllValid(table: map<string, ExternalConverter>) {
    forall n :: n in table ==> Valid(Some(table[n]))
  }

  /** Registration and unregistration keep every registered converter valid. */
  lemma {:induction false} RegistrationKeepsConvertersValid(table: map<string, ExternalConverter>, ex: Option<ExternalConverter>, name: string)
    requires AllValid(table)
    ensures AllValid(RegisterExternal(table, ex).0)
    ensures AllValid(UnregisterExternal(table, name))
  {
  }

  /**
   * nnstreamer_converter_custom_register: a non-empty name and a callback
   * are required; 0 on success, -EINVAL otherwise.
   */
  function CustomRegister(table: map<string, CustomCallback>, name: Option<string>, func: Option<nat>, data: nat): (r: (map<string, CustomCallback>, int))
    ensures r.1 == 0 || r.1 == -EINVAL
    ensures r.1 == 0 <==> name.Some? && name.value != "" && func.Some? && name.value !in table
    ensures r.1 == 0 ==> r.0 == table[name.value := CustomCallback(func.value, data)]
    ensures r.1 != 0 ==> r.0 == table
  {
    if name.None? || name.value == "" || func.None? then (table, -EINVAL)
    else
      var (t, ok) := RegisterSubplugin(table, name.value, CustomCallback(func.value, data));
      if ok then (t, 0) else (table, -EINVAL)
  }

  /** nnstreamer_converter_custom_unregister: 0 when the name was registered, -EINVAL otherwise. */
  function CustomUnregister(table: map<string, CustomCallback>, name: string): (r: (map<string, CustomCallback>, int))
    ensures r.1 == 0 <==> name in table
    ensures r.1 != 0 ==> r.1 == -EINVAL
    ensures name !in r.0 && forall n :: n in r.0 <==> n in table && n != name
  {
    var (t, ok) := UnregisterSubplugin(table, name);
    (t, if ok then 0 else -EINVAL)
  }

  /** Registering a new callback and unregistering it again leaves the table as it was. */
  lemma {:induction false} CustomRegisterUnregister(table: map<string, CustomCallback>, name: string, func: nat, data: nat)
    requires name != "" && name !in table
    ensures var (t1, c1) := CustomRegister(table, Some(name), Some(func), data);
      var (t2, c2) := CustomUnregister(t1, name);
      c1 == 0 && c2 == 0 && t2 == table
  {
    var (t1, c1) := CustomRegister(table, Some(name), Some(func), data);
    var (t2, c2) := CustomUnregister(t1, name);
    assert t2.Keys == table.Keys;
  }

  /**
   * A listed name matches a media type when it is the media type itself,
   * or when its converter is registered, has query_caps, and one of its
   * caps structures carries the media type as its name.
   */
  predicate Matches(table: map<string, ExternalConverter>, name: string, mediaType: Option<string>) {
    mediaType == Some(name) ||
    (name in table && table[name].hasQueryCaps && mediaType.Some? && mediaType.value in table[name].capsNames)
  }

  /** The position of the first listed name that matches, or the length of the listing. */
  function FirstMatch(listing: seq<string>, table: map<string, ExternalConverter>, mediaType: Option<string>): (i: nat)
    ensures i <= |listing|
    ensures forall j :: 0 <= j < i ==> !Matches(table, listing[j], mediaType)
    ensures i < |listing| ==> Matches(table, listing[i], mediaType)
    decreases |listing|
  {
    if listing == [] then 0
    else if Matches(table, listing[0], mediaType) then 0
    else 1 + FirstMatch(listing[1..], table, mediaType)
  }

  /**
   * findExternalConverter: walks the registered names in the order the
   * registry lists them; a name equal to the media type gives that name's
   * converter (none if it cannot be loaded), otherwise a converter whose
   * caps carry the media type is taken.
   */
  method FindExternalConverter(listing: seq<string>, table: map<string, ExternalConverter>, mediaType: Option<string>)
    returns (r: Option<ExternalConverter>)
    ensures var i := FirstMatch(listing, table, mediaType);
      r == (if i < |listing| then Lookup(table, listing[i]) else None)
  {
    var i := 0;
    while i < |listing|
      invariant 0 <= i <= |listing|
      invariant forall k :: 0 <= k < i ==> !Matches(table, listing[k], mediaType)
    {
      var ex := Lookup(table, listing[i]);
      if mediaType == Some(listing[i]) {
        FirstMatchAt(listing, table, mediaType, i);
        return ex;
      }
      if ex.Some? && ex.value.hasQueryCaps {
        var caps := ex.value.capsNames;
        var j := 0;
        while j < |caps|
          invariant 0 <= j <= |caps|
          invariant forall k :: 0 <= k < j ==> Some(caps[k]) != mediaType
        {
          if Some(caps[j]) == mediaType {
            FirstMatchAt(listing, table, mediaType, i);
            return ex;
          }
          j := j + 1;
        }
      }
      i := i + 1;
    }
    FirstMatchAt(listing, table, mediaType, |listing|);
    r := None;
  }

  /** The first match is at i when nothing before i matches and i matches or ends the listing. */
  lemma {:induction false} FirstMatchAt(listing: seq<string>, table: map<string, ExternalConverter>, mediaType: Option<string>, i: nat)
    requires i <= |listing|
    requires forall k :: 0 <= k < i ==> !Matches(table, listing[k], mediaType)
    requires i < |listing| ==> Matches(table, listing[i], mediaType)
    ensures FirstMatch(listing, table, mediaType) == i
  {
  }

  /** What gst_tensors_config_from_peer leaves: the peer's config and whether the peer's caps are fixed. */
  datatype PeerConfig = PeerConfig(config: TensorsConfig, fixed: bool)

  /** The outcome of parse_custom: the config (None on failure) and the external converter the element keeps. */
  datatype CustomParsed = CustomParsed(config: Option<TensorsConfig>, external: Option<ExternalConverter>)

  /** The media type parse_custom looks an external converter up by: the script framework in custom-script mode. */
  function CustomMediaType(mode: ConverterMode, extFw: Option<string>, mimetype: string): (m: Option<string>)
    ensures mode != CustomScript ==> m == Some(mimetype)
  {
    if mode == CustomScript then extFw else Some(mimetype)
  }

  /** The placeholder config of custom-code mode: one UINT8 [1:1:1:1] tensor. */
  function CustomCodeConfig(fields: CapsFields): TensorsConfig {
    var rate := FieldsRate(fields);
    TensorsConfig(TensorsInfo([TensorInfo(UInt8, Dims4(1, 1, 1, 1))], Static), rate.0, rate.1)
  }

  /**
   * gst_tensor_converter_parse_custom. found is what findExternalConverter
   * answers for CustomMediaType, outConfig what the converter's
   * get_out_config makes of the caps (None when it returns FALSE) and
   * openResult what its open callback returns.
   */
  function ParseCustom(mode: ConverterMode, external: Option<ExternalConverter>, peer: PeerConfig,
                       fields: CapsFields, found: Option<ExternalConverter>,
                       outConfig: Option<TensorsConfig>, openResult: int): (p: CustomParsed)
  {
    if mode == CustomCode then
      CustomParsed(Some(if peer.fixed then peer.config else CustomCodeConfig(fields)), external)
    else if external.Some? then
      CustomParsed(Some(peer.config), external)
    else if found.None? then
      CustomParsed(None, None)
    else if !peer.fixed && (!found.value.hasGetOutConfig || outConfig.None?) then
      CustomParsed(None, None)
    else if mode == CustomScript && found.value.hasOpen && openResult < 0 then
      CustomParsed(None, None)
    else
      CustomParsed(Some(if peer.fixed then peer.config else outConfig.value), found)
  }

  /**
   * Without an external converter yet, custom parsing succeeds exactly when
   * one is found that can describe the caps (or the peer fixes them) and,
   * for a script, opens; the converter is then kept, and on failure none is.
   */
  lemma {:induction false} ParseCustomLookup(mode: ConverterMode, peer: PeerConfig, fields: CapsFields,
                          found: Option<ExternalConverter>, outConfig: Option<TensorsConfig>, openResult: int)
    requires mode != CustomCode
    ensures var p := ParseCustom(mode, None, peer, fields, found, outConfig, openResult);
      (p.config.Some? <==>
        (found.Some? && (peer.fixed || (found.value.hasGetOutConfig && outConfig.Some?)) &&
         !(mode == CustomScript && found.value.hasOpen && openResult < 0))) &&
      (p.config.Some? ==> p.external == found) &&
      (p.config.None? ==> p.external.None?)
  {
  }

  /** Custom-code mode and an already chosen converter always parse, keeping the converter. */
  lemma {:induction false} ParseCustomKeepsConverter(mode: ConverterMode, external: Option<ExternalConverter>, peer: PeerConfig,
                                  fields: CapsFields, found: Option<ExternalConverter>,
                                  outConfig: Option<TensorsConfig>, openResult: int)
    requires mode == CustomCode || external.Some?
    ensures var p := ParseCustom(mode, external, peer, fields, found, outConfig, openResult);
      p.config.Some? && p.external == external &&
      (peer.fixed ==> p.config.value == peer.config)
  {
  }
}
