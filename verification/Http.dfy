/** Response headers, and the single value per name that the tunnel forwards. */
module Http {
  /** http.Header, keyed by canonical names. */
  type Header = map<string, seq<string>>

  const PAYMENT_REQUIRED := "Payment-Required"
  const WWW_AUTHENTICATE := "Www-Authenticate"
  const ATTESTATION := "Payment-Requirements-Signature"

  const STATUS_OK := 200
  const STATUS_PAYMENT_REQUIRED := 402

  /** Header.Get: the first value, or the empty string. */
  function Get(h: Header, name: string): string {
    if name in h && |h[name]| > 0 then h[name][0] else ""
  }

  function Set(h: Header, name: string, value: string): Header { h[name := [value]] }

  function Add(h: Header, name: string, value: string): Header {
    h[name := (if name in h then h[name] else []) + [value]]
  }

  function Del(h: Header, name: string): Header { h - {name} }

  /** What the operations do to the first value of a name, and that they leave the other names alone. */
  lemma HeaderLaws(h: Header, name: string, value: string, other: string)
    requires other != name
    ensures Get(Set(h, name, value), name) == value && Get(Del(h, name), name) == ""
    ensures Get(Add(h, name, value), name) == if name in h && |h[name]| > 0 then Get(h, name) else value
    ensures name in Add(h, name, value) && |Add(h, name, value)[name]| == 1 + (if name in h then |h[name]| else 0)
    ensures Add(h, name, value)[name][|Add(h, name, value)[name]| - 1] == value
    ensures name !in Del(h, name) && |Set(h, name, value)[name]| == 1
    ensures forall after :: after in [Set(h, name, value), Add(h, name, value), Del(h, name)] ==>
              (other in after <==> other in h) && (other in h ==> after[other] == h[other])
  {
  }

  /** The headers as the response envelope carries them. */
  type Flat = map<string, string>

  function Flatten(h: Header): Flat {
    map name | name in h && |h[name]| > 0 :: h[name][0]
  }

  function Lookup(f: Flat, name: string): string { if name in f then f[name] else "" }

  /** dispatchRequest's loop over the recorded headers, in whatever order the map yields them. */
  method FlattenHeaders(h: Header) returns (flat: Flat)
    ensures flat == Flatten(h)
  {
    flat := map[];
    var left := h.Keys;
    while left != {}
      invariant left <= h.Keys
      invariant forall name :: name in flat <==> name in h && name !in left && |h[name]| > 0
      invariant forall name :: name in flat ==> flat[name] == h[name][0]
      decreases |left|
    {
      var name :| name in left;
      if |h[name]| > 0 {
        flat := flat[name := h[name][0]];
      }
      left := left - {name};
    }
  }

  /** Looking a header up in the forwarded envelope gives the value Header.Get gave the signer. */
  lemma FlattenKeepsFirst(h: Header, name: string)
    ensures Lookup(Flatten(h), name) == Get(h, name)
  {
  }
}
