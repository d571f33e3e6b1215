/** Resource records of the trust library and the keys the code joins from their fields. */
module TrustRecords {
  import opened Text
  import opened Wrappers

  /** A discovered, candidate or baseline record. `ttl` stands for the two bounds ttl_min and ttl_max, which
      are always written equal. */
  datatype Record = Record(section: string, name: string, rrtype: string, value: string, ttl: Option<int>)

  /** The key under which a discovery skips a record it has already kept. */
  function SeenKey(hostId: nat, r: Record): string {
    Decimal(hostId) + "|" + (r.section + "|" + r.name + "|" + r.rrtype + "|" + TrimSpace(r.value))
  }

  /** What rrHash digests. */
  function HashInput(hostId: nat, r: Record): string {
    SeenKey(hostId, r.(rrtype := ToUpper(r.rrtype)))
  }

  function GroupKey(r: Record): string {
    r.section + "|" + NormName(r.name) + "|" + ToUpper(r.rrtype)
  }

  function ExactKey(r: Record): string {
    GroupKey(r) + "|" + TrimSpace(r.value)
  }

  predicate IsUpper(s: string) { ToUpper(s) == s }

  lemma UpperTwice(s: string)
    ensures IsUpper(ToUpper(s))
  {
  }

  lemma NoBarInDecimal(n: nat)
    ensures NoBar(Decimal(n))
  {
    var d := Decimal(n);
    assert forall i :: 0 <= i < |d| ==> '0' <= d[i] <= '9';
  }

  /** Records of different hosts never share a key, whatever their fields hold. */
  lemma SeenKeyOfHosts(a: nat, r: Record, b: nat, s: Record)
    requires SeenKey(a, r) == SeenKey(b, s)
    ensures a == b
  {
    NoBarInDecimal(a);
    NoBarInDecimal(b);
    BarSplits(Decimal(a), r.section + "|" + r.name + "|" + r.rrtype + "|" + TrimSpace(r.value),
              Decimal(b), s.section + "|" + s.name + "|" + s.rrtype + "|" + TrimSpace(s.value));
    DecimalInjective(a, b);
  }

  predicate Separable(r: Record) { NoBar(r.section) && NoBar(r.name) && NoBar(r.rrtype) }

  lemma NormKeepsNoBar(s: string)
    requires NoBar(s)
    ensures NoBar(NormName(s)) && NoBar(ToUpper(s))
  {
    var t := TrimSpace(s);
    var u := Trim(t, IsDot);
    assert forall i :: 0 <= i < |u| ==> u[i] in t;
    assert forall i :: 0 <= i < |t| ==> t[i] in s;
    assert NoBar(t) && NoBar(u);
  }

  lemma JoinThree(a: string, b: string, c: string, x: string, y: string, z: string)
    requires NoBar(a) && NoBar(b) && NoBar(x) && NoBar(y)
    ensures a + "|" + b + "|" + c == x + "|" + y + "|" + z <==> a == x && b == y && c == z
  {
    assert a + "|" + b + "|" + c == a + "|" + (b + "|" + c);
    assert x + "|" + y + "|" + z == x + "|" + (y + "|" + z);
    if a + "|" + b + "|" + c == x + "|" + y + "|" + z {
      BarSplits(a, b + "|" + c, x, y + "|" + z);
      BarSplits(b, c, y, z);
    }
  }

  lemma JoinFour(a: string, b: string, c: string, d: string, x: string, y: string, z: string, w: string)
    requires NoBar(a) && NoBar(b) && NoBar(c) && NoBar(x) && NoBar(y) && NoBar(z)
    ensures (a + "|" + b + "|" + c) + "|" + d == (x + "|" + y + "|" + z) + "|" + w
        <==> a == x && b == y && c == z && d == w
  {
    var left, right := (a + "|" + b + "|" + c) + "|" + d, (x + "|" + y + "|" + z) + "|" + w;
    assert left == a + "|" + b + "|" + (c + "|" + d);
    assert right == x + "|" + y + "|" + (z + "|" + w);
    JoinThree(a, b, c + "|" + d, x, y, z + "|" + w);
    if left == right {
      BarSplits(c, d, z, w);
    }
  }

  /** Two rows share the key of a discovery exactly when they are of one host and agree in section, name, type and
      trimmed value; and the key that is hashed exactly when they agree up to the case of the type. */
  lemma SeenKeyInjective(a: nat, r: Record, b: nat, s: Record)
    requires Separable(r) && Separable(s)
    ensures SeenKey(a, r) == SeenKey(b, s) <==>
      a == b && r.section == s.section && r.name == s.name && r.rrtype == s.rrtype && TrimSpace(r.value) == TrimSpace(s.value)
    ensures HashInput(a, r) == HashInput(b, s) <==>
      && a == b && r.section == s.section && r.name == s.name && ToUpper(r.rrtype) == ToUpper(s.rrtype)
      && TrimSpace(r.value) == TrimSpace(s.value)
  {
    hide ToUpper, TrimSpace, NoBar;
    NormKeepsNoBar(r.rrtype);
    NormKeepsNoBar(s.rrtype);
    FieldsDecide(a, r, b, s);
    FieldsDecide(a, r.(rrtype := ToUpper(r.rrtype)), b, s.(rrtype := ToUpper(s.rrtype)));
  }

  lemma FieldsDecide(a: nat, r: Record, b: nat, s: Record)
    requires Separable(r) && Separable(s)
    ensures SeenKey(a, r) == SeenKey(b, s) <==>
      a == b && r.section == s.section && r.name == s.name && r.rrtype == s.rrtype && TrimSpace(r.value) == TrimSpace(s.value)
  {
    hide TrimSpace, NoBar;
    JoinFour(r.section, r.name, r.rrtype, TrimSpace(r.value), s.section, s.name, s.rrtype, TrimSpace(s.value));
    if SeenKey(a, r) == SeenKey(b, s) {
      SeenKeyOfHosts(a, r, b, s);
      NoBarInDecimal(a);
      BarSplits(Decimal(a), r.section + "|" + r.name + "|" + r.rrtype + "|" + TrimSpace(r.value),
                Decimal(b), s.section + "|" + s.name + "|" + s.rrtype + "|" + TrimSpace(s.value));
    }
  }

  /** Joining loses nothing but the normalisation, when section, name and type hold no separator. */
  lemma ExactKeyInjective(r: Record, s: Record)
    requires Separable(r) && Separable(s)
    ensures ExactKey(r) == ExactKey(s) <==>
      && r.section == s.section && NormName(r.name) == NormName(s.name)
      && ToUpper(r.rrtype) == ToUpper(s.rrtype) && TrimSpace(r.value) == TrimSpace(s.value)
    ensures GroupKey(r) == GroupKey(s) <==>
      r.section == s.section && NormName(r.name) == NormName(s.name) && ToUpper(r.rrtype) == ToUpper(s.rrtype)
  {
    hide NormName, ToUpper, TrimSpace, NoBar;
    NormKeepsNoBar(r.name);
    NormKeepsNoBar(s.name);
    NormKeepsNoBar(r.rrtype);
    NormKeepsNoBar(s.rrtype);
    JoinFour(r.section, NormName(r.name), ToUpper(r.rrtype), TrimSpace(r.value),
             s.section, NormName(s.name), ToUpper(s.rrtype), TrimSpace(s.value));
    JoinThree(r.section, NormName(r.name), ToUpper(r.rrtype), s.section, NormName(s.name), ToUpper(s.rrtype));
  }
}
