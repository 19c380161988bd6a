/** How container and volume names are built from instance names, and when two of
    them are the same string. */
module Naming {
  import opened Text

  function InstanceContainer(name: string): string {
    "pgforge_" + name
  }

  function UpgradeContainer(name: string, to: nat): string {
    "pgforge_upgrade_" + name + "_v" + Decimal(to)
  }

  function DataVolume(name: string): string {
    "pgforge_data_" + name
  }

  function VersionedVolume(name: string, version: nat): string {
    "pgforge_data_" + name + "_v" + Decimal(version)
  }

  function Versioned(name: string, version: nat): string {
    name + "_v" + Decimal(version)
  }

  /** The suffix `_v<digits>` starts at `k`. */
  predicate VersionSuffixAt(s: string, k: nat) {
    k + 2 < |s| && s[k] == '_' && s[k + 1] == 'v' && AllDigits(s[k + 2..])
  }

  /** A name that no upgrade can collide with: it does not itself end in `_v<digits>`. */
  predicate Plain(s: string) {
    forall k | 0 <= k < |s| :: !VersionSuffixAt(s, k)
  }

  lemma InstanceContainerInjective(m: string, n: string)
    requires InstanceContainer(m) == InstanceContainer(n)
    ensures m == n
  {
    assert InstanceContainer(m)[8..] == m && InstanceContainer(n)[8..] == n;
  }

  lemma DataVolumeInjective(m: string, n: string)
    requires DataVolume(m) == DataVolume(n)
    ensures m == n
  {
    assert DataVolume(m)[13..] == m && DataVolume(n)[13..] == n;
  }

  /** The version suffix can be read off the end, whatever the name. */
  lemma VersionedInjective(m: string, v: nat, n: string, w: nat)
    requires Versioned(m, v) == Versioned(n, w)
    ensures m == n && v == w
  {
    var s := Versioned(m, v);
    var dv, dw := Decimal(v), Decimal(w);
    assert s == m + "_v" + dv && s == n + "_v" + dw;
    assert s[|m| + 1] == 'v' && s[|n| + 1] == 'v';
    assert forall i | |m| + 2 <= i < |s| :: IsDigit(s[i]) by {
      assert s[|m| + 2..] == dv;
    }
    assert forall i | |n| + 2 <= i < |s| :: IsDigit(s[i]) by {
      assert s[|n| + 2..] == dw;
    }
    assert |m| == |n|;
    assert s[..|m|] == m && s[..|n|] == n;
    assert s[|m| + 2..] == dv && s[|n| + 2..] == dw;
    DecimalInjective(v, w);
  }

  lemma VersionedVolumeInjective(m: string, v: nat, n: string, w: nat)
    requires VersionedVolume(m, v) == VersionedVolume(n, w)
    ensures m == n && v == w
  {
    assert VersionedVolume(m, v)[13..] == Versioned(m, v);
    assert VersionedVolume(n, w)[13..] == Versioned(n, w);
    VersionedInjective(m, v, n, w);
  }

  /** A first volume and an upgraded one collide for exactly one choice of names. */
  lemma VolumeCollision(n: string, m: string, v: nat)
    ensures DataVolume(n) == VersionedVolume(m, v) <==> n == Versioned(m, v)
  {
    assert VersionedVolume(m, v) == "pgforge_data_" + Versioned(m, v);
    assert VersionedVolume(m, v)[13..] == Versioned(m, v);
    assert DataVolume(n)[13..] == n;
  }

  lemma VersionedIsNotPlain(m: string, v: nat)
    ensures !Plain(Versioned(m, v))
  {
    var s := Versioned(m, v);
    assert s[|m| + 2..] == Decimal(v);
    assert VersionSuffixAt(s, |m|);
  }

  lemma PlainAvoidsUpgrades(n: string, m: string, v: nat)
    requires Plain(n)
    ensures DataVolume(n) != VersionedVolume(m, v)
    ensures InstanceContainer(n) != UpgradeContainer(m, v)
  {
    VolumeCollision(n, m, v);
    VersionedIsNotPlain(m, v);
    VersionedIsNotPlain("upgrade_" + m, v);
    assert UpgradeContainer(m, v)[8..] == Versioned("upgrade_" + m, v);
    assert InstanceContainer(n)[8..] == n;
  }
}
