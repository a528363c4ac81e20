/**
 * The secret backends of the inventory plugin: each turns the `secrets`
 * mapping of a service definition (key to reference) into a mapping of key
 * to plaintext, or fails as a whole.
 *
 * What the Vault server and the Conjur appliance answer is an input here:
 * `VaultData` maps a secret path to the `data.data` mapping a KV-v2 read
 * returns, and `ConjurAnswers` maps a request to the body of the response.
 * A request the map does not answer stands for a failed call.
 */
module Secrets {
  import opened Wrappers
  import opened Dicts
  import opened Text
  import Utf8
  import Base64

  datatype SecretError =
    | SecretNotDecodable
    | VaultReadFailed(path: string)
    | ConjurReferenceWithoutVar(reference: string)
    | ConjurRequestFailed(url: string)
    | SecretsUnbound

  type VaultData = map<string, Dict<string>>

  /** The `verify` argument of the Conjur request: a boolean, or whatever string the configuration held. */
  datatype Verify = VerifyFlag(flag: bool) | VerifyText(text: string)

  datatype ConjurRequest = ConjurRequest(url: string, verify: Verify)

  type ConjurAnswers = map<ConjurRequest, string>

  // ---------------------------------------------------------------- per value

  /**
   * The loop shared by the base64 and Conjur backends: every value is
   * resolved on its own, in order, and the first failure is the result.
   */
  function Collect(refs: Dict<string>, resolve: string -> Result<string, SecretError>): Result<Dict<string>, SecretError> {
    if refs == [] then Ok([])
    else
      var last := refs[|refs| - 1];
      match Collect(refs[..|refs| - 1], resolve)
      case Err(e) => Err(e)
      case Ok(m) =>
        match resolve(last.1)
        case Err(e) => Err(e)
        case Ok(v) => Ok(Put(m, last.0, v))
  }

  /** Splitting the last pair off a dictionary without duplicate keys. */
  lemma UniqueKeysLast(refs: Dict<string>)
    requires UniqueKeys(refs) && refs != []
    ensures var init := refs[..|refs| - 1];
      UniqueKeys(init) && refs[|refs| - 1].0 !in Keys(init)
      && Keys(refs) == Keys(init) + [refs[|refs| - 1].0]
  {
    var init := refs[..|refs| - 1];
    assert forall i :: 0 <= i < |init| ==> Keys(init)[i] == Keys(refs)[i];
  }

  /** All or nothing: the result is a mapping exactly when every value resolves. */
  lemma {:induction false} CollectOk(refs: Dict<string>, resolve: string -> Result<string, SecretError>)
    ensures Collect(refs, resolve).Ok? <==> forall i :: 0 <= i < |refs| ==> resolve(refs[i].1).Ok?
  {
    if refs != [] {
      var init := refs[..|refs| - 1];
      var last := refs[|refs| - 1];
      CollectOk(init, resolve);
      if Collect(refs, resolve).Ok? {
        assert Collect(init, resolve).Ok? && resolve(last.1).Ok?;
        forall i | 0 <= i < |refs| ensures resolve(refs[i].1).Ok? {
          if i < |init| {
            assert refs[i] == init[i];
            assert resolve(init[i].1).Ok?;
          } else {
            assert refs[i] == last;
          }
        }
      } else if Collect(init, resolve).Ok? {
        assert !resolve(refs[|refs| - 1].1).Ok?;
      } else {
        var j :| 0 <= j < |init| && !resolve(init[j].1).Ok?;
        assert refs[j] == init[j];
      }
    }
  }

  /** The error of the whole is the error of one of its values. */
  lemma {:induction false} CollectError(refs: Dict<string>, resolve: string -> Result<string, SecretError>, e: SecretError)
    requires forall i :: 0 <= i < |refs| ==> resolve(refs[i].1).Err? ==> resolve(refs[i].1).error == e
    ensures Collect(refs, resolve).Err? ==> Collect(refs, resolve).error == e
  {
    if refs != [] {
      var init := refs[..|refs| - 1];
      assert forall i :: 0 <= i < |init| ==> init[i] == refs[i];
      CollectError(init, resolve, e);
    }
  }

  /** An error no value resolves to is not the error of the whole. */
  lemma {:induction false} CollectAvoids(refs: Dict<string>, resolve: string -> Result<string, SecretError>, e: SecretError)
    requires forall v :: resolve(v) != Err(e)
    ensures Collect(refs, resolve) != Err(e)
  {
    if refs != [] {
      CollectAvoids(refs[..|refs| - 1], resolve, e);
    }
  }

  /** On success every key of `refs` is kept, in order, bound to its resolved value. */
  lemma {:induction false} CollectValues(refs: Dict<string>, resolve: string -> Result<string, SecretError>)
    requires UniqueKeys(refs) && Collect(refs, resolve).Ok?
    ensures Keys(Collect(refs, resolve).value) == Keys(refs)
    ensures forall i :: 0 <= i < |refs| ==>
      resolve(refs[i].1).Ok? && Get(Collect(refs, resolve).value, refs[i].0) == Some(resolve(refs[i].1).value)
  {
    if refs != [] {
      var init := refs[..|refs| - 1];
      var last := refs[|refs| - 1];
      UniqueKeysLast(refs);
      CollectValues(init, resolve);
      PutKeys(Collect(init, resolve).value, last.0, resolve(last.1).value);
      forall i | 0 <= i < |refs| - 1 ensures refs[i] == init[i] && refs[i].0 != last.0 {
        assert Keys(refs)[i] == Keys(init)[i];
      }
    }
  }

  // ---------------------------------------------------------------- base64

  /**
   * One base64 secret: `b64decode(secret + "===")`, then strict UTF-8, then
   * `rstrip()`; None where any step raises.
   */
  function DecodeSecret(secret: string): Option<string> {
    match Base64.Decode(secret + "===")
    case None => None
    case Some(bytes) =>
      match Utf8.Decode(bytes)
      case None => None
      case Some(text) => Some(RStrip(text))
  }

  function Base64Value(secret: string): Result<string, SecretError> {
    match DecodeSecret(secret)
    case None => Err(SecretNotDecodable)
    case Some(v) => Ok(v)
  }

  /** `get_base64_secrets`: every value decoded, or a single error. */
  function Base64Secrets(refs: Dict<string>): Result<Dict<string>, SecretError> {
    Collect(refs, Base64Value)
  }

  /**
   * All or nothing: the result is a mapping exactly when every value decodes,
   * and it then holds every key of `refs`, in order, with its decoded value.
   */
  lemma Base64SecretsAllOrNothing(refs: Dict<string>)
    requires UniqueKeys(refs)
    ensures Base64Secrets(refs).Ok? <==> forall i :: 0 <= i < |refs| ==> DecodeSecret(refs[i].1).Some?
    ensures Base64Secrets(refs).Err? ==> Base64Secrets(refs) == Err(SecretNotDecodable)
    ensures Base64Secrets(refs).Ok? ==>
      var m := Base64Secrets(refs).value;
      Keys(m) == Keys(refs)
      && forall i :: 0 <= i < |refs| ==> Get(m, refs[i].0) == DecodeSecret(refs[i].1)
  {
    CollectOk(refs, Base64Value);
    CollectError(refs, Base64Value, SecretNotDecodable);
    if Base64Secrets(refs).Ok? {
      CollectValues(refs, Base64Value);
    }
  }

  /**
   * A secret stored as the unpadded base64 of the UTF-8 form of a string
   * resolves to that string, trailing whitespace removed.
   */
  lemma DecodeSecretRoundTrip(s: string)
    ensures DecodeSecret(Base64.EncodeUnpadded(Utf8.Encode(s))) == Some(RStrip(s))
    ensures DecodeSecret(Base64.Encode(Utf8.Encode(s))) == Some(RStrip(s))
    ensures s == [] || !IsSpace(s[|s| - 1]) ==> RStrip(s) == s
  {
    Base64.DecodeEncodeUnpadded(Utf8.Encode(s));
    Base64.DecodeEncodePadded(Utf8.Encode(s));
    Utf8.DecodeEncode(s);
  }

  /** `"cGFzcw"` (the base64 of `pass` without its padding) resolves to `pass`. */
  lemma DecodeSecretExample()
    ensures Base64Secrets([("pw", "cGFzcw")]) == Ok([("pw", "pass")])
  {
    PassEncoding();
    DecodeSecretRoundTrip("pass");
    assert RStrip("pass") == "pass" by {
      assert !IsSpace("pass"[3]);
    }
    assert Base64Value("cGFzcw") == Ok("pass");
    var refs := [("pw", "cGFzcw")];
    assert refs[..0] == [];
    assert Collect(refs, Base64Value) == Ok(Put([], "pw", "pass"));
  }

  lemma PassEncoding()
    ensures Base64.EncodeUnpadded(Utf8.Encode("pass")) == "cGFzcw"
  {
    PassBytes();
    Base64.EncodeUnpaddedUnfold([112, 97, 115, 115]);
    assert [112, 97, 115, 115][3..] == [115];
    assert Base64.Quantum(112, 97, 115) == "cGFz" by {
      assert Base64.AlphabetChar(28) == 'c' && Base64.AlphabetChar(6) == 'G';
      assert Base64.AlphabetChar(5) == 'F' && Base64.AlphabetChar(51) == 'z';
    }
    assert Base64.EncodeUnpadded([115]) == "cw" by {
      assert Base64.AlphabetChar(28) == 'c' && Base64.AlphabetChar(48) == 'w';
    }
  }

  lemma PassBytes()
    ensures Utf8.Encode("pass") == [112, 97, 115, 115]
  {
    assert Utf8.Encode("s") == [115] by {
      assert Utf8.Encode("s") == Utf8.EncodeChar('s') + Utf8.Encode([]);
    }
    assert Utf8.Encode("ss") == [115] + Utf8.Encode("s");
    assert Utf8.Encode("ass") == [97] + Utf8.Encode("ss");
    assert Utf8.Encode("pass") == [112] + Utf8.Encode("ass");
  }

  // ---------------------------------------------------------------- vault

  /** Assigns every pair of `data` into `acc`, in order. */
  function Merge(acc: Dict<string>, data: Dict<string>): Dict<string> {
    if data == [] then acc
    else var last := data[|data| - 1]; Put(Merge(acc, data[..|data| - 1]), last.0, last.1)
  }

  /** The value of the last pair for `k` in `d`. */
  function LastBinding(d: Dict<string>, k: string): Option<string> {
    if d == [] then None
    else if d[|d| - 1].0 == k then Some(d[|d| - 1].1)
    else LastBinding(d[..|d| - 1], k)
  }

  /**
   * `get_vault_secrets`: reads every referenced path, in order, and flattens
   * the returned data into one mapping.
   */
  function VaultSecrets(refs: Dict<string>, vault: VaultData): Result<Dict<string>, SecretError> {
    if refs == [] then Ok([])
    else
      var path := refs[|refs| - 1].1;
      match VaultSecrets(refs[..|refs| - 1], vault)
      case Err(e) => Err(e)
      case Ok(m) =>
        if path !in vault then Err(VaultReadFailed(path)) else Ok(Merge(m, vault[path]))
  }

  /** The data returned for the references, concatenated in reading order. */
  function ReadData(refs: Dict<string>, vault: VaultData): Dict<string>
    requires forall i :: 0 <= i < |refs| ==> refs[i].1 in vault
  {
    if refs == [] then [] else ReadData(refs[..|refs| - 1], vault) + vault[refs[|refs| - 1].1]
  }

  lemma {:induction false} MergeLastBinding(acc: Dict<string>, data: Dict<string>, k: string)
    ensures Get(Merge(acc, data), k) == if LastBinding(data, k).Some? then LastBinding(data, k) else Get(acc, k)
  {
    if data != [] {
      MergeLastBinding(acc, data[..|data| - 1], k);
    }
  }

  lemma {:induction false} LastBindingAppend(d: Dict<string>, e: Dict<string>, k: string)
    ensures LastBinding(d + e, k) == if LastBinding(e, k).Some? then LastBinding(e, k) else LastBinding(d, k)
  {
    if e != [] {
      assert (d + e)[..|d + e| - 1] == d + e[..|e| - 1];
      LastBindingAppend(d, e[..|e| - 1], k);
    } else {
      assert d + e == d;
    }
  }

  /** The read fails exactly when some referenced path cannot be read. */
  lemma {:induction false} VaultSecretsOk(refs: Dict<string>, vault: VaultData)
    ensures VaultSecrets(refs, vault).Ok? <==> forall i :: 0 <= i < |refs| ==> refs[i].1 in vault
  {
    if refs != [] {
      var init := refs[..|refs| - 1];
      VaultSecretsOk(init, vault);
      assert forall i :: 0 <= i < |init| ==> init[i] == refs[i];
    }
  }

  /** Last key wins: every key takes the value of its last occurrence across all returned data. */
  lemma {:induction false} VaultSecretsLastWins(refs: Dict<string>, vault: VaultData, k: string)
    requires forall i :: 0 <= i < |refs| ==> refs[i].1 in vault
    ensures VaultSecrets(refs, vault).Ok?
    ensures Get(VaultSecrets(refs, vault).value, k) == LastBinding(ReadData(refs, vault), k)
  {
    if refs != [] {
      var init := refs[..|refs| - 1];
      assert forall i :: 0 <= i < |init| ==> init[i] == refs[i];
      VaultSecretsLastWins(init, vault, k);
      var m := VaultSecrets(init, vault).value;
      var data := vault[refs[|refs| - 1].1];
      MergeLastBinding(m, data, k);
      LastBindingAppend(ReadData(init, vault), data, k);
    }
  }

  // ---------------------------------------------------------------- conjur

  /** A string `verify` of "true" or "false", in any case, becomes the boolean. */
  function NormalizeVerify(v: Verify): Verify {
    match v
    case VerifyText(s) =>
      if AsciiLower(s) == "false" then VerifyFlag(false)
      else if AsciiLower(s) == "true" then VerifyFlag(true)
      else v
    case VerifyFlag(_) => v
  }

  lemma NormalizeVerifySpec(v: Verify)
    ensures NormalizeVerify(v) == VerifyFlag(false) <==>
      v == VerifyFlag(false) || (v.VerifyText? && AsciiLower(v.text) == "false")
    ensures NormalizeVerify(v) == VerifyFlag(true) <==>
      v == VerifyFlag(true) || (v.VerifyText? && AsciiLower(v.text) == "true")
    ensures NormalizeVerify(v).VerifyText? ==> NormalizeVerify(v) == v
    ensures NormalizeVerify(NormalizeVerify(v)) == NormalizeVerify(v)
  {
  }

  lemma NormalizeVerifyIgnoresCase()
    ensures NormalizeVerify(VerifyText("FALSE")) == VerifyFlag(false)
    ensures NormalizeVerify(VerifyText("True")) == VerifyFlag(true)
    ensures NormalizeVerify(VerifyText("no")) == VerifyText("no")
  {
    assert AsciiLower("FALSE") == "false";
    assert AsciiLower("True") == "true";
    assert AsciiLower("no") == "no";
  }

  /** `secret_path.split("!var")[1].strip()`. */
  function ConjurVariablePath(reference: string): Result<string, SecretError> {
    match SecondField(reference, "!var")
    case None => Err(ConjurReferenceWithoutVar(reference))
    case Some(field) => Ok(Strip(field))
  }

  /**
   * The path is missing exactly when the reference holds no `!var`.
   * Otherwise it is the text after the first `!var`, up to a second `!var`
   * if there is one, with whitespace stripped on both sides: whatever comes
   * before the first `!var` or after the second is dropped.
   */
  lemma ConjurVariablePathSpec(reference: string, prefix: string, field: string, rest: string)
    requires SepFree(prefix, "!var") && SepFree(field, "!var")
    ensures ConjurVariablePath(reference).Err? <==> forall i :: 0 <= i <= |reference| ==> !OccursAt(reference, "!var", i)
    ensures ConjurVariablePath(prefix + "!var" + field) == Ok(Strip(field))
    ensures ConjurVariablePath(prefix + "!var" + field + "!var" + rest) == Ok(Strip(field))
  {
    SecondFieldMissing(reference, "!var");
    SepFreeNone(field, "!var");
    SecondFieldOfConcat(prefix, "!var", field);
    SecondFieldBetween(prefix, "!var", field, rest);
  }

  /** A reference `!var <path>` yields the path. */
  lemma ConjurVariablePathPlain(path: string)
    requires forall i :: 0 <= i <= |path| ==> !OccursAt(path, "!var", i)
    requires path == [] || (!IsSpace(path[0]) && !IsSpace(path[|path| - 1]))
    ensures ConjurVariablePath("!var " + path) == Ok(path)
  {
    var field := " " + path;
    NoOccurrenceAfter(' ', path, "!var");
    SecondFieldOfConcat("", "!var", field);
    assert "" + "!var" + field == "!var " + path;
    StripTrimmed(path);
    StripLeadingSpace(path);
  }

  function ConjurUrl(address: string, account: string, path: string): string {
    address + "/secrets/" + account + "/variable/" + path
  }

  /** The request made for one reference, when it has a path. */
  function ConjurRequestFor(reference: string, address: string, account: string, verify: Verify): Option<ConjurRequest> {
    match ConjurVariablePath(reference)
    case Err(_) => None
    case Ok(path) => Some(ConjurRequest(ConjurUrl(address, account, path), NormalizeVerify(verify)))
  }

  /** One reference: its path, then the body of the answer to its request. */
  function ConjurValue(reference: string, address: string, account: string, verify: Verify,
                       conjur: ConjurAnswers): Result<string, SecretError>
  {
    match ConjurVariablePath(reference)
    case Err(e) => Err(e)
    case Ok(path) =>
      var request := ConjurRequest(ConjurUrl(address, account, path), NormalizeVerify(verify));
      if request !in conjur then Err(ConjurRequestFailed(request.url)) else Ok(conjur[request])
  }

  /** One reference, its answer, or its failure. */
  lemma ConjurValueSpec(reference: string, address: string, account: string, verify: Verify,
                        conjur: ConjurAnswers)
    ensures var q := ConjurRequestFor(reference, address, account, verify);
      var r := ConjurValue(reference, address, account, verify, conjur);
      (r.Ok? <==> q.Some? && q.value in conjur)
      && (r.Ok? ==> r.value == conjur[q.value])
      && (q.None? ==> r == Err(ConjurReferenceWithoutVar(reference)))
  {
  }

  /** The resolver the Conjur backend applies to every reference. */
  function ConjurResolver(address: string, account: string, verify: Verify,
                          conjur: ConjurAnswers): string -> Result<string, SecretError>
  {
    reference => ConjurValue(reference, address, account, verify, conjur)
  }

  /** `get_conjur_secrets`: one request per reference, the body as the value. */
  function ConjurSecrets(refs: Dict<string>, address: string, account: string, verify: Verify,
                         conjur: ConjurAnswers): Result<Dict<string>, SecretError>
  {
    Collect(refs, ConjurResolver(address, account, verify, conjur))
  }

  /**
   * The Conjur secrets resolve exactly when every reference has a path and
   * its request is answered; each key then holds the body of its answer.
   */
  lemma ConjurSecretsSpec(refs: Dict<string>, address: string, account: string,
                          verify: Verify, conjur: ConjurAnswers)
    requires UniqueKeys(refs)
    ensures var r := ConjurSecrets(refs, address, account, verify, conjur);
      (r.Ok? <==> forall i :: 0 <= i < |refs| ==>
         var q := ConjurRequestFor(refs[i].1, address, account, verify); q.Some? && q.value in conjur)
      && (r.Ok? ==>
            Keys(r.value) == Keys(refs)
            && forall i :: 0 <= i < |refs| ==>
                 Get(r.value, refs[i].0) == Some(conjur[ConjurRequestFor(refs[i].1, address, account, verify).value]))
  {
    var resolve := ConjurResolver(address, account, verify, conjur);
    CollectOk(refs, resolve);
    forall i | 0 <= i < |refs|
      ensures var q := ConjurRequestFor(refs[i].1, address, account, verify);
        (resolve(refs[i].1).Ok? <==> q.Some? && q.value in conjur)
        && (resolve(refs[i].1).Ok? ==> resolve(refs[i].1).value == conjur[q.value])
    {
      ConjurValueSpec(refs[i].1, address, account, verify, conjur);
    }
    if ConjurSecrets(refs, address, account, verify, conjur).Ok? {
      CollectValues(refs, resolve);
    }
  }

  // ---------------------------------------------------------------- selection

  /** The backend named by the `secret_handler` option; any other name leaves `secrets` unbound. */
  function Resolve(handler: string, refs: Dict<string>, vault: VaultData, conjurAddress: string,
                   conjurAccount: string, conjurVerify: Verify, conjur: ConjurAnswers): Result<Dict<string>, SecretError>
  {
    if handler == "vault" then VaultSecrets(refs, vault)
    else if handler == "base64" then Base64Secrets(refs)
    else if handler == "conjur" then ConjurSecrets(refs, conjurAddress, conjurAccount, conjurVerify, conjur)
    else Err(SecretsUnbound)
  }

  lemma BackendsNeverUnbound(refs: Dict<string>, vault: VaultData, address: string,
                             account: string, verify: Verify, conjur: ConjurAnswers)
    ensures VaultSecrets(refs, vault) != Err(SecretsUnbound)
    ensures Base64Secrets(refs) != Err(SecretsUnbound)
    ensures ConjurSecrets(refs, address, account, verify, conjur) != Err(SecretsUnbound)
  {
    VaultNeverUnbound(refs, vault);
    CollectAvoids(refs, Base64Value, SecretsUnbound);
    CollectAvoids(refs, ConjurResolver(address, account, verify, conjur), SecretsUnbound);
  }

  lemma {:induction false} VaultNeverUnbound(refs: Dict<string>, vault: VaultData)
    ensures VaultSecrets(refs, vault) != Err(SecretsUnbound)
  {
    if refs != [] {
      VaultNeverUnbound(refs[..|refs| - 1], vault);
    }
  }

  /** Only an unknown handler name fails with an unbound `secrets`. */
  lemma ResolveUnbound(handler: string, refs: Dict<string>, vault: VaultData, address: string,
                       account: string, verify: Verify, conjur: ConjurAnswers)
    ensures Resolve(handler, refs, vault, address, account, verify, conjur) == Err(SecretsUnbound)
        <==> handler != "vault" && handler != "base64" && handler != "conjur"
  {
    BackendsNeverUnbound(refs, vault, address, account, verify, conjur);
  }
}
