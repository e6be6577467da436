/** The reservation headers: the sidecar prints a decision's reservations into indexed
    response headers, the client library reads them back until the first blank one. */
module Headers {
  import opened TokenStore
  import opened Limits

  type Fields = map<string, string>

  /** Header.Get: a field that is not there reads as blank. */
  function Get(h: Fields, name: string): string {
    if name in h then h[name] else ""
  }

  function Digit(d: nat): char
    requires d < 10
  {
    ('0' as int + d) as char
  }

  /** The %d of a number that is not negative. */
  function Decimal(n: nat): (s: string)
    ensures s != ""
  {
    if n < 10 then [Digit(n)] else Decimal(n / 10) + [Digit(n % 10)]
  }

  lemma {:induction false} DecimalIsInjective(a: nat, b: nat)
    ensures Decimal(a) == Decimal(b) ==> a == b
  {
    var x, y := Decimal(a), Decimal(b);
    if x == y {
      assert x[|x| - 1] == Digit(a % 10) && y[|y| - 1] == Digit(b % 10);
      if a >= 10 && b >= 10 {
        assert x[..|x| - 1] == Decimal(a / 10) && y[..|y| - 1] == Decimal(b / 10);
        DecimalIsInjective(a / 10, b / 10);
      }
    }
  }

  const TOKEN_PREFIX := "Concurrency-Token-"
  const KEY_PREFIX := "Concurrency-Key-"

  function TokenName(i: nat): string {
    TOKEN_PREFIX + Decimal(i)
  }

  function KeyName(i: nat): string {
    KEY_PREFIX + Decimal(i)
  }

  /** No two reservations share a header, and no token header is a key header. */
  lemma NamesAreDistinct(i: nat, j: nat)
    ensures TokenName(i) != KeyName(j)
    ensures i != j ==> TokenName(i) != TokenName(j) && KeyName(i) != KeyName(j)
  {
    assert TokenName(i)[12] == 'T' && KeyName(j)[12] == 'K';
    assert TokenName(i)[|TOKEN_PREFIX|..] == Decimal(i) && TokenName(j)[|TOKEN_PREFIX|..] == Decimal(j);
    assert KeyName(i)[|KEY_PREFIX|..] == Decimal(i) && KeyName(j)[|KEY_PREFIX|..] == Decimal(j);
    DecimalIsInjective(i, j);
  }

  /** The headers say exactly rs: every other index reads as blank. */
  ghost predicate Prints(h: Fields, rs: seq<TokenReservation>) {
    forall i: nat ::
      && Get(h, TokenName(i)) == (if i < |rs| then rs[i].token else "")
      && Get(h, KeyName(i)) == (if i < |rs| then rs[i].key else "")
  }

  /** What a client reads from any headers at all: entries up to the first blank token. */
  ghost predicate Reads(h: Fields, rs: seq<TokenReservation>) {
    && Get(h, TokenName(|rs|)) == ""
    && forall i: nat :: i < |rs| ==>
         && rs[i].token != ""
         && rs[i].token == Get(h, TokenName(i))
         && rs[i].key == Get(h, KeyName(i))
  }

  /** Reading what was printed gives back a prefix, cut at the first blank token: so it
      gives back everything exactly when no token is blank. */
  lemma ReadsWhatWasPrinted(h: Fields, printed: seq<TokenReservation>, out: seq<TokenReservation>)
    requires Prints(h, printed) && Reads(h, out)
    ensures out <= printed
    ensures |out| < |printed| ==> printed[|out|].token == ""
    ensures forall r :: r in out ==> r.token != ""
    ensures out == printed <==> forall r :: r in printed ==> r.token != ""
  {
    assert Get(h, TokenName(|printed|)) == "";
    forall i | 0 <= i < |out|
      ensures out[i] == printed[i]
    {
      assert Get(h, TokenName(i)) == printed[i].token;
      assert Get(h, KeyName(i)) == printed[i].key;
    }
    if |out| < |printed| {
      assert Get(h, TokenName(|out|)) == printed[|out|].token;
      assert printed[|out|] in printed;
    }
  }

  /** The headers nobody but the reservation loop writes. */
  ghost predicate Reserved(name: string) {
    exists i: nat :: name == TokenName(i) || name == KeyName(i)
  }

  /** The headers that tell a refused client when to come back are none of these, so
      writing them later leaves the reservations readable. */
  lemma OtherHeadersDoNotMatter(h: Fields, rs: seq<TokenReservation>, name: string, value: string)
    requires Prints(h, rs) && !("Concurrency-" <= name)
    ensures !Reserved(name) && Prints(h[name := value], rs)
  {
    forall i: nat
      ensures name != TokenName(i) && name != KeyName(i)
    {
      assert TokenName(i)[..|"Concurrency-"|] == "Concurrency-" == KeyName(i)[..|"Concurrency-"|];
    }
    forall i: nat
      ensures Get(h[name := value], TokenName(i)) == Get(h, TokenName(i))
      ensures Get(h[name := value], KeyName(i)) == Get(h, KeyName(i))
    {}
  }

  /** The response under construction. */
  class ResponseWriter {
    var header: Fields

    constructor ()
      ensures header == map[]
    {
      header := map[];
    }

    method Set(name: string, value: string)
      modifies this
      ensures header == old(header)[name := value]
    {
      header := header[name := value];
    }

    method WriteReservations(rs: seq<TokenReservation>)
      requires forall name :: name in header ==> !Reserved(name)
      modifies this
      ensures Prints(header, rs)
      ensures forall name :: !Reserved(name) ==> Get(header, name) == Get(old(header), name)
    {
      assert Prints(header, rs[..0]);
      for i := 0 to |rs|
        invariant Prints(header, rs[..i])
        invariant forall name :: !Reserved(name) ==> Get(header, name) == Get(old(header), name)
      {
        ghost var before := header;
        Set(TokenName(i), rs[i].token);
        Set(KeyName(i), rs[i].key);
        PrintOne(before, rs, i);
      }
      assert rs[..|rs|] == rs;
    }
  }

  lemma PrintOne(h: Fields, rs: seq<TokenReservation>, i: nat)
    requires i < |rs| && Prints(h, rs[..i])
    ensures Prints(h[TokenName(i) := rs[i].token][KeyName(i) := rs[i].key], rs[..i + 1])
  {
    var after := h[TokenName(i) := rs[i].token][KeyName(i) := rs[i].key];
    forall j: nat
      ensures Get(after, TokenName(j)) == (if j < i + 1 then rs[j].token else "")
      ensures Get(after, KeyName(j)) == (if j < i + 1 then rs[j].key else "")
    {
      assert Get(h, TokenName(j)) == (if j < i then rs[j].token else "");
      assert Get(h, KeyName(j)) == (if j < i then rs[j].key else "");
      NamesAreDistinct(i, j);
      NamesAreDistinct(j, i);
    }
  }

  /** The client's loop. It has no bound, yet it ends on any headers: each turn uses up
      one more of finitely many header names. */
  method ReadReservations(h: Fields) returns (rs: seq<TokenReservation>)
    ensures Reads(h, rs)
  {
    rs := [];
    var i: nat := 0;
    ghost var unread := h.Keys;
    while true
      invariant i == |rs|
      invariant forall j: nat :: j < i ==>
                  rs[j].token != "" && rs[j].token == Get(h, TokenName(j)) && rs[j].key == Get(h, KeyName(j))
      invariant forall j: nat :: j >= i && TokenName(j) in h ==> TokenName(j) in unread
      decreases |unread|
    {
      var token := Get(h, TokenName(i));
      if token == "" {
        break;
      }
      var key := Get(h, KeyName(i));
      rs := rs + [TokenReservation(key, token)];
      forall j: nat | j > i
        ensures TokenName(j) != TokenName(i)
      {
        NamesAreDistinct(j, i);
      }
      unread := unread - {TokenName(i)};
      i := i + 1;
    }
  }
}
