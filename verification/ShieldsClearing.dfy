/**
 Clearing shields settings by the time of their last change.
 */
module ShieldsClearing {

  datatype ContentType =
    | BraveAds | BraveCosmeticFiltering | BraveTrackers | BraveHttpUpgradableResources
    | BraveFingerprintingV2 | BraveShields | BraveReferrers | BraveCookies
    | NotShields(name: string)

  const ShieldsTypes := [
    BraveAds, BraveCosmeticFiltering, BraveTrackers, BraveHttpUpgradableResources,
    BraveFingerprintingV2, BraveShields, BraveReferrers, BraveCookies]

  datatype Key = Key(contentType: ContentType, primary: string, secondary: string)

  datatype Setting = Setting(value: int, lastModified: Time)

  /** Microseconds; 0 is the null time and `MaxTime` the one after all others. */
  type Time = t: int | t <= MaxTime witness 0

  const MaxTime := 0x7fff_ffff_ffff_ffff

  predicate IsAllTime(begin: Time, end: Time) {
    begin == 0 && (end == 0 || end == MaxTime)
  }

  predicate InRange(t: Time, begin: Time, end: Time) {
    begin <= t && (t < end || end == 0)
  }

  predicate IsHit(k: Key, s: Setting, types: seq<ContentType>, begin: Time, end: Time) {
    k.contentType in types && InRange(s.lastModified, begin, end)
  }

  /** What is left after clearing some content types in a range that is not all-time. */
  function Without(settings: map<Key, Setting>, types: seq<ContentType>, begin: Time, end: Time): map<Key, Setting> {
    map k | k in settings && !IsHit(k, settings[k], types, begin, end) :: settings[k]
  }

  /** The whole operation; an all-time range is left to the code that clears everything anyway. */
  function Cleared(settings: map<Key, Setting>, begin: Time, end: Time): map<Key, Setting> {
    if IsAllTime(begin, end) then settings else Without(settings, ShieldsTypes, begin, end)
  }

  /** A rule goes exactly when it is of one of the eight types, was last changed in the range, which has its
      beginning and not its end, and the range is not all-time; the other rules stay as they are. */
  ghost predicate ClearedExactly(settings: map<Key, Setting>, begin: Time, end: Time, left: map<Key, Setting>) {
    && (forall k :: k in left ==> k in settings && left[k] == settings[k])
    && (forall k :: k in settings ==>
          (k !in left <==>
             && k.contentType in {BraveAds, BraveCosmeticFiltering, BraveTrackers, BraveHttpUpgradableResources,
                                  BraveFingerprintingV2, BraveShields, BraveReferrers, BraveCookies}
             && begin <= settings[k].lastModified && (settings[k].lastModified < end || end == 0)
             && !(begin == 0 && (end == 0 || end == 0x7fff_ffff_ffff_ffff))))
  }

  lemma ClearedIsExact(settings: map<Key, Setting>, begin: Time, end: Time)
    ensures ClearedExactly(settings, begin, end, Cleared(settings, begin, end))
  {
  }

  /** Clearing one range and then the adjoining one clears the whole range, exactly when the whole range
      is not all-time or has nothing in it. */
  lemma ClearingIsAdditive(settings: map<Key, Setting>, begin: Time, middle: Time, end: Time)
    requires begin <= middle < MaxTime && middle != 0 && (end == 0 || middle <= end)
    ensures Cleared(Cleared(settings, begin, middle), middle, end) == Cleared(settings, begin, end)
       <==> !IsAllTime(begin, end) || forall k :: k in settings ==> !IsHit(k, settings[k], ShieldsTypes, begin, end)
  {
  }

  /** The preference provider; `settings` are the rules it stores. */
  class PrefProvider {
    var settings: map<Key, Setting>

    constructor (settings: map<Key, Setting>)
      ensures this.settings == settings
    {
      this.settings := settings;
    }

    /** The null time when the provider has no such rule. */
    function LastModified(k: Key): Time
      reads this
    {
      if k in settings then settings[k].lastModified else 0
    }

    /** SetWebsiteSetting with a null value. */
    method RemoveWebsiteSetting(k: Key)
      modifies this
      ensures settings == old(settings) - {k}
    {
      settings := settings - {k};
    }
  }

  /** The map over all providers; `foreign` are the rules that other providers have. */
  class HostContentSettingsMap {
    const provider: PrefProvider
    const foreign: set<Key>

    constructor (provider: PrefProvider, foreign: set<Key>)
      ensures this.provider == provider && this.foreign == foreign
    {
      this.provider, this.foreign := provider, foreign;
    }

    /** All rules of one type, in some order, whichever provider has them. */
    method SettingsForOneType(t: ContentType) returns (ks: seq<Key>)
      ensures forall k :: k in ks <==> k.contentType == t && (k in provider.settings || k in foreign)
    {
      ks := [];
      var rest := provider.settings.Keys + foreign;
      while rest != {}
        invariant rest <= provider.settings.Keys + foreign
        invariant forall k :: k in ks <==> k in provider.settings.Keys + foreign - rest && k.contentType == t
        decreases rest
      {
        var k :| k in rest;
        rest := rest - {k};
        if k.contentType == t {
          ks := ks + [k];
        }
      }
    }
  }

  method ClearShieldsSettings(m: HostContentSettingsMap, begin: Time, end: Time)
    modifies m.provider
    ensures m.provider.settings == Cleared(old(m.provider.settings), begin, end)
    ensures ClearedExactly(old(m.provider.settings), begin, end, m.provider.settings)
  {
    if begin == 0 && (end == 0 || end == MaxTime) {
      ClearedIsExact(old(m.provider.settings), begin, end);
      return;
    }
    var i := 0;
    while i < |ShieldsTypes|
      invariant 0 <= i <= |ShieldsTypes|
      invariant m.provider.settings == Without(old(m.provider.settings), ShieldsTypes[..i], begin, end)
    {
      ClearOneType(m, ShieldsTypes[i], begin, end);
      i := i + 1;
    }
    assert ShieldsTypes[..i] == ShieldsTypes;
    ClearedIsExact(old(m.provider.settings), begin, end);
  }

  /** The inner loop. */
  method ClearOneType(m: HostContentSettingsMap, t: ContentType, begin: Time, end: Time)
    modifies m.provider
    ensures m.provider.settings == Without(old(m.provider.settings), [t], begin, end)
  {
    var ks := m.SettingsForOneType(t);
    var j := 0;
    while j < |ks|
      invariant 0 <= j <= |ks|
      invariant forall k :: k in m.provider.settings <==>
                  && k in old(m.provider.settings)
                  && !(k in ks[..j] && InRange(old(m.provider.settings)[k].lastModified, begin, end))
      invariant forall k :: k in m.provider.settings ==> m.provider.settings[k] == old(m.provider.settings)[k]
    {
      var lastModified := m.provider.LastModified(ks[j]);
      if lastModified >= begin && (lastModified < end || end == 0) {
        m.provider.RemoveWebsiteSetting(ks[j]);
      }
      j := j + 1;
    }
    assert ks[..j] == ks;
  }
}
