/** Manifest selection (a3sdt.py, find_manifest). The `manifests` object of the
    configuration is a Python dict; it is modelled as its entries in insertion order.
    A dict has distinct keys, so the lemmas below assume `Distinct(entries)`. */
module Manifests {
  import opened Wrappers

  datatype Entry<M> = Entry(name: string, manifest: M)

  datatype ManifestError =
    | NoManifestNamed(name: string)   // an error naming the unknown manifest
    | ArgumentErrorNotConstructible   // the AttributeError argparse raises when ArgumentError gets a str
    | ValuesNotSubscriptable          // the TypeError of `dict.values()[0]` in Python 3

  const DefaultName: string := "default"

  /** The names are distinct, as the keys of a dict are. */
  predicate Distinct<M>(entries: seq<Entry<M>>) {
    forall i, j :: 0 <= i < j < |entries| ==> entries[i].name != entries[j].name
  }

  /** `manifests[name]`, with `None` for the KeyError. */
  function Lookup<M>(entries: seq<Entry<M>>, name: string): (r: Option<M>)
    ensures r.None? <==> forall i :: 0 <= i < |entries| ==> entries[i].name != name
    ensures r.Some? ==> exists i :: 0 <= i < |entries| && entries[i] == Entry(name, r.value)
  {
    if entries == [] then None
    else if entries[0].name == name then Some(entries[0].manifest)
    else
      var r := Lookup(entries[1..], name);
      assert forall i :: 1 <= i < |entries| ==> entries[i] == entries[1..][i - 1];
      r
  }

  /** Python truthiness of the `desired_manifest` argument: neither None nor "". */
  predicate Given(desired: Option<string>) {
    desired.Some? && desired.value != ""
  }

  /** find_manifest exactly as written. Its two error paths both fail before reaching
      their intent: building `ArgumentError` from a str raises AttributeError inside
      argparse, and the sole-manifest branch indexes a dict view, which Python 3 rejects. */
  function FindManifestAsWritten<M>(entries: seq<Entry<M>>, desired: Option<string>): (r: Result<Option<M>, ManifestError>)
    ensures r.Failure? <==>
      (Given(desired) && Lookup(entries, desired.value).None?) ||
      (!Given(desired) && Lookup(entries, DefaultName).None? && |entries| == 1)
    ensures Given(desired) && r.Failure? ==> r.error == ArgumentErrorNotConstructible
    ensures !Given(desired) && r.Failure? ==> r.error == ValuesNotSubscriptable
  {
    if Given(desired) then
      match Lookup(entries, desired.value)
      case Some(m) => Success(Some(m))
      case None => Failure(ArgumentErrorNotConstructible)
    else if Lookup(entries, DefaultName).Some? then Success(Lookup(entries, DefaultName))
    else if |entries| == 1 then Failure(ValuesNotSubscriptable)
    else Success(None)
  }

  /** find_manifest as intended: an explicit name, else `default`, else the only manifest;
      an unknown explicit name is an error that names it. */
  function FindManifest<M>(entries: seq<Entry<M>>, desired: Option<string>): (r: Result<Option<M>, ManifestError>)
    ensures r.Failure? <==> Given(desired) && Lookup(entries, desired.value).None?
    ensures r.Success? && r.value.Some? ==> exists i :: 0 <= i < |entries| && entries[i].manifest == r.value.value
  {
    if Given(desired) then
      match Lookup(entries, desired.value)
      case Some(m) => Success(Some(m))
      case None => Failure(NoManifestNamed(desired.value))
    else if Lookup(entries, DefaultName).Some? then Success(Lookup(entries, DefaultName))
    else if |entries| == 1 then Success(Some(entries[0].manifest))
    else Success(None)
  }

  /** The selection order, stated on the entries themselves. */
  lemma FindManifestSelection<M>(entries: seq<Entry<M>>, desired: Option<string>)
    requires Distinct(entries)
    ensures Given(desired) ==>
      (FindManifest(entries, desired).Failure? <==>
         forall i :: 0 <= i < |entries| ==> entries[i].name != desired.value)
    ensures Given(desired) && FindManifest(entries, desired).Failure? ==>
      FindManifest(entries, desired).error == NoManifestNamed(desired.value)
    ensures Given(desired) && FindManifest(entries, desired).Success? ==>
      exists i :: 0 <= i < |entries| && entries[i] == Entry(desired.value, FindManifest(entries, desired).value.value)
    ensures !Given(desired) && (exists i :: 0 <= i < |entries| && entries[i].name == DefaultName) ==>
      exists i :: 0 <= i < |entries| && entries[i] == Entry(DefaultName, FindManifest(entries, desired).value.value)
    ensures !Given(desired) && (forall i :: 0 <= i < |entries| ==> entries[i].name != DefaultName) ==>
      FindManifest(entries, desired) == (if |entries| == 1 then Success(Some(entries[0].manifest)) else Success(None))
  {
  }

  /** A configuration with one manifest not called `default` and no name given:
      the source raises where the comment above it promises that manifest. */
  lemma SoleManifestDiscrepancy<M>(m: M)
    ensures Distinct([Entry("altisLife", m)])
    ensures FindManifestAsWritten([Entry("altisLife", m)], None) == Failure(ValuesNotSubscriptable)
    ensures FindManifest([Entry("altisLife", m)], None) == Success(Some(m))
  {
  }

  /** An unknown explicit name: the source raises AttributeError, whose message does not
      name the manifest, where it meant to report the missing name. */
  lemma UnknownNameDiscrepancy<M>(m: M)
    ensures Distinct([Entry("altisLife", m)])
    ensures FindManifestAsWritten([Entry("altisLife", m)], Some("x")) == Failure(ArgumentErrorNotConstructible)
    ensures FindManifest([Entry("altisLife", m)], Some("x")) == Failure(NoManifestNamed("x"))
  {
  }

  /** Outside those two error paths, the code as written and the intended rule agree. */
  lemma {:induction false} AsWrittenAgreesElsewhere<M>(entries: seq<Entry<M>>, desired: Option<string>)
    requires Distinct(entries)
    requires FindManifestAsWritten(entries, desired) != Failure(ValuesNotSubscriptable)
    requires FindManifestAsWritten(entries, desired) != Failure(ArgumentErrorNotConstructible)
    ensures FindManifestAsWritten(entries, desired) == FindManifest(entries, desired)
    ensures FindManifest(entries, desired).Success?
  {
  }
}
