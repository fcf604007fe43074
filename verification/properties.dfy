/** Defaulting and admissible-value enforcement of a track's properties
    (GenomeTrack.set_properties_defaults). A track's properties are a map from
    property name to raw value; the track class supplies a map of defaults and,
    for some properties, the finite set of admissible values. */
module Properties {

  /** The warning logged when a constrained property is reset: the property,
      the rejected value and the default put in its place. */
  datatype Warning<K, V> = Warning(prop: K, rejected: V, substituted: V)

  /** Lines 64-67: the defaults of the properties the user did not set. */
  function WithDefaults<K, V>(props: map<K, V>, defaults: map<K, V>): map<K, V>
  {
    defaults + props
  }

  /** What lines 69-79 need in order not to raise `KeyError`: every constrained
      property is present once defaults are filled in, and has a default
      whenever its value is not admissible. */
  predicate Enforceable<K, V>(props: map<K, V>, defaults: map<K, V>, possible: map<K, set<V>>)
  {
    forall p | p in possible :: p in defaults || (p in props && props[p] in possible[p])
  }

  /** The value a property ends with. */
  function Resolve<K, V>(filled: map<K, V>, defaults: map<K, V>, possible: map<K, set<V>>, k: K): V
    requires k in filled
    requires k in possible && filled[k] !in possible[k] ==> k in defaults
  {
    if k in possible && filled[k] !in possible[k] then defaults[k] else filled[k]
  }

  /** The properties after set_properties_defaults, as a map. */
  function DefaultsApplied<K, V>(props: map<K, V>, defaults: map<K, V>, possible: map<K, set<V>>): map<K, V>
    requires Enforceable(props, defaults, possible)
  {
    var filled := WithDefaults(props, defaults);
    map k | k in filled :: Resolve(filled, defaults, possible, k)
  }

  /** The constrained properties whose value (after defaulting) is not admissible. */
  function Rejected<K, V>(props: map<K, V>, defaults: map<K, V>, possible: map<K, set<V>>): set<K>
  {
    var filled := WithDefaults(props, defaults);
    set p | p in possible && p in filled && filled[p] !in possible[p]
  }

  /** The properties the warnings are about. */
  function WarnedProps<K, V>(warnings: seq<Warning<K, V>>): set<K>
  {
    if warnings == [] then {} else WarnedProps(warnings[..|warnings| - 1]) + {warnings[|warnings| - 1].prop}
  }

  /** The first loop of set_properties_defaults (lines 64-67). */
  method FillDefaults<K, V>(props: map<K, V>, defaults: map<K, V>) returns (r: map<K, V>)
    ensures r.Keys == props.Keys + defaults.Keys
    ensures forall k | k in props :: r[k] == props[k]
    ensures forall k | k in defaults && k !in props :: r[k] == defaults[k]
  {
    r := props;
    var todo := defaults.Keys;
    while todo != {}
      invariant todo <= defaults.Keys
      invariant forall k | k in r :: k in props || (k in defaults && k !in todo)
      invariant forall k | k in props :: k in r && r[k] == props[k]
      invariant forall k | k in defaults && k !in todo :: k in r
      invariant forall k | k in r && k !in props :: r[k] == defaults[k]
      decreases |todo|
    {
      var p :| p in todo;
      if p !in r {
        r := r[p := defaults[p]];
      }
      todo := todo - {p};
    }
  }

  /** The second loop of set_properties_defaults (lines 69-79): every
      constrained property whose value is not admissible is reset to its
      default, with one warning each. */
  method EnforcePossible<K, V>(filled: map<K, V>, defaults: map<K, V>, possible: map<K, set<V>>)
    returns (r: map<K, V>, warnings: seq<Warning<K, V>>)
    requires forall p | p in possible :: p in filled && (filled[p] !in possible[p] ==> p in defaults)
    ensures r.Keys == filled.Keys
    ensures forall k | k in r :: r[k] == Resolve(filled, defaults, possible, k)
    ensures WarnedProps(warnings) == set p | p in possible && filled[p] !in possible[p]
    ensures forall i, j | 0 <= i < j < |warnings| :: warnings[i].prop != warnings[j].prop
    ensures forall i | 0 <= i < |warnings| ::
      warnings[i].prop in possible && warnings[i].prop in defaults &&
      warnings[i].rejected == filled[warnings[i].prop] &&
      warnings[i].rejected !in possible[warnings[i].prop] &&
      warnings[i].substituted == defaults[warnings[i].prop]
  {
    r := filled;
    warnings := [];
    var pending := possible.Keys;
    while pending != {}
      invariant pending <= possible.Keys
      invariant r.Keys == filled.Keys
      invariant forall k | k in r ::
        r[k] == if k in possible && k !in pending then Resolve(filled, defaults, possible, k) else filled[k]
      invariant WarnedProps(warnings) == set p | p in possible && p !in pending && filled[p] !in possible[p]
      invariant forall i, j | 0 <= i < j < |warnings| :: warnings[i].prop != warnings[j].prop
      invariant forall i | 0 <= i < |warnings| ::
        warnings[i].prop in possible && warnings[i].prop !in pending && warnings[i].prop in defaults &&
        warnings[i].rejected == filled[warnings[i].prop] &&
        warnings[i].rejected !in possible[warnings[i].prop] &&
        warnings[i].substituted == defaults[warnings[i].prop]
      decreases |pending|
    {
      var p :| p in pending;
      ghost var before := warnings;
      if r[p] !in possible[p] {
        warnings := warnings + [Warning(p, r[p], defaults[p])];
        r := r[p := defaults[p]];
        assert warnings[..|warnings| - 1] == before;
      }
      pending := pending - {p};
    }
  }

  /** set_properties_defaults: defaults first, then enforcement. */
  method SetPropertiesDefaults<K, V>(props: map<K, V>, defaults: map<K, V>, possible: map<K, set<V>>)
    returns (r: map<K, V>, warnings: seq<Warning<K, V>>)
    requires Enforceable(props, defaults, possible)
    ensures r == DefaultsApplied(props, defaults, possible)
    ensures r.Keys == props.Keys + defaults.Keys
    ensures forall k | k in props && k !in possible :: r[k] == props[k]
    ensures WarnedProps(warnings) == Rejected(props, defaults, possible)
    ensures forall i, j | 0 <= i < j < |warnings| :: warnings[i].prop != warnings[j].prop
  {
    var filled := FillDefaults(props, defaults);
    assert filled == WithDefaults(props, defaults);
    r, warnings := EnforcePossible(filled, defaults, possible);
  }

  /** Lines 64-67: after defaulting, every property with a default is present,
      the user's own values are kept, and no other key appears. */
  lemma DefaultsFilled<K, V>(props: map<K, V>, defaults: map<K, V>, possible: map<K, set<V>>)
    requires Enforceable(props, defaults, possible)
    ensures defaults.Keys <= DefaultsApplied(props, defaults, possible).Keys
    ensures DefaultsApplied(props, defaults, possible).Keys == props.Keys + defaults.Keys
    ensures forall k | k in props && k !in possible :: DefaultsApplied(props, defaults, possible)[k] == props[k]
  {
  }

  /** Lines 69-79: a constrained property keeps an admissible value and is
      otherwise reset to exactly its default. */
  lemma ConstrainedResolved<K, V>(props: map<K, V>, defaults: map<K, V>, possible: map<K, set<V>>, p: K)
    requires Enforceable(props, defaults, possible)
    requires p in possible
    ensures var v := if p in props then props[p] else defaults[p];
      DefaultsApplied(props, defaults, possible)[p] == if v in possible[p] then v else defaults[p]
  {
  }

  /** When every default is itself admissible, every constrained property ends admissible. */
  lemma AllAdmissible<K, V>(props: map<K, V>, defaults: map<K, V>, possible: map<K, set<V>>)
    requires forall p | p in possible :: p in defaults && defaults[p] in possible[p]
    ensures Enforceable(props, defaults, possible)
    ensures forall p | p in possible :: DefaultsApplied(props, defaults, possible)[p] in possible[p]
  {
  }

  /** Running set_properties_defaults a second time changes nothing. */
  lemma Idempotent<K, V>(props: map<K, V>, defaults: map<K, V>, possible: map<K, set<V>>)
    requires Enforceable(props, defaults, possible)
    ensures Enforceable(DefaultsApplied(props, defaults, possible), defaults, possible)
    ensures DefaultsApplied(DefaultsApplied(props, defaults, possible), defaults, possible)
         == DefaultsApplied(props, defaults, possible)
  {
    var once := DefaultsApplied(props, defaults, possible);
    assert Enforceable(once, defaults, possible);
    var twice := DefaultsApplied(once, defaults, possible);
    assert WithDefaults(once, defaults) == once;
    assert twice.Keys == once.Keys;
    forall k | k in once
      ensures twice[k] == once[k]
    {
    }
  }
}
