/**
 * Whether a transfer pays enough (omni-relayer/src/utils/bridge_api.rs), and the remembered first quote with its
 * cleanup (omni-relayer/src/workers/mod.rs).
 */
module FeeCheck {
  import opened Wrappers
  import opened Arithmetic
  import opened AckPolicy

  /** The discount in percent, and the size of the words fees are kept in; tests on fees use twice as many bits. */
  datatype Terms = Terms(discount: nat, word: nat)

  type Rules = r: Terms | r.discount <= 100 && r.word > 0 witness Terms(0, 1)

  /** The relayer's own words. */
  const U128: nat := 0x1_0000_0000_0000_0000_0000_0000_0000_0000

  /** A quote: what relaying costs in the native token and in the transferred one. */
  datatype TransferFee = TransferFee(nativeTokenFee: Option<nat>, transferredTokenFee: Option<nat>)

  /** What the sender attached. */
  datatype Fee = Fee(fee: nat, nativeFee: nat)

  /** The product wraps at the size of a word. */
  function DiscountOne(fee: nat, discount: nat, word: nat): nat
    requires discount <= 100 && word > 0
  {
    (fee * (100 - discount)) % word / 100
  }

  function ApplyDiscount(quote: TransferFee, discount: nat, word: nat): TransferFee
    requires discount <= 100 && word > 0
  {
    TransferFee(
      if quote.nativeTokenFee.Some? then Some(DiscountOne(quote.nativeTokenFee.value, discount, word)) else None,
      if quote.transferredTokenFee.Some? then Some(DiscountOne(quote.transferredTokenFee.value, discount, word)) else None)
  }

  function OrZero(n: Option<nat>): nat { if n.Some? then n.value else 0 }

  /** The test on discounted requirements; products and sum wrap at `width`. */
  predicate Covers(native: nat, token: nat, provided: Fee, width: nat)
    requires width > 0
  {
    if native == 0 && token == 0 then true
    else if native == 0 then provided.fee >= token
    else if token == 0 then provided.nativeFee >= native
    else (provided.fee * native % width + provided.nativeFee * token % width) % width >= token * native % width
  }

  /** The check for fees below `word`, with discounts computed in words and the rest in double words. */
  predicate Suffices(quote: TransferFee, discount: nat, provided: Fee, word: nat)
    requires discount <= 100 && word > 0
  {
    var d := ApplyDiscount(quote, discount, word);
    assert word * word > 0;
    Covers(OrZero(d.nativeTokenFee), OrZero(d.transferredTokenFee), provided, word * word)
  }

  predicate IsFeeSufficient(quote: TransferFee, rules: Rules, provided: Fee) {
    Suffices(quote, rules.discount, provided, rules.word)
  }

  /** The discount products do not overflow a word. */
  predicate NoOverflow(quote: TransferFee, discount: nat, word: nat)
    requires discount <= 100
  {
    && OrZero(quote.nativeTokenFee) * (100 - discount) < word
    && OrZero(quote.transferredTokenFee) * (100 - discount) < word
  }

  function NativeDue(quote: TransferFee, discount: nat): nat
    requires discount <= 100
  {
    OrZero(quote.nativeTokenFee) * (100 - discount) / 100
  }

  function TokenDue(quote: TransferFee, discount: nat): nat
    requires discount <= 100
  {
    OrZero(quote.transferredTokenFee) * (100 - discount) / 100
  }

  /** The same test over the integers. */
  predicate Pays(native: nat, token: nat, provided: Fee) {
    if native == 0 && token == 0 then true
    else if native == 0 then provided.fee >= token
    else if token == 0 then provided.nativeFee >= native
    else provided.fee * native + provided.nativeFee * token >= token * native
  }

  lemma SmallIsExact(x: nat, w: nat)
    requires x < w
    ensures x % w == x
  {
  }

  lemma CoversIsPays(native: nat, token: nat, provided: Fee, m: nat, k: nat, w: nat)
    requires provided.fee <= m && provided.nativeFee <= m && native <= k && token <= k && k <= m
    requires 0 < w && m * k + m * k < w
    ensures Covers(native, token, provided, w) <==> Pays(native, token, provided)
  {
    ProductBound(provided.fee, native, m, k);
    ProductBound(provided.nativeFee, token, m, k);
    ProductBound(token, native, m, k);
    var x, y, z := provided.fee * native, provided.nativeFee * token, token * native;
    assert 0 <= x <= m * k && 0 <= y <= m * k && 0 <= z <= m * k;
    SmallIsExact(x, w);
    SmallIsExact(y, w);
    SmallIsExact(z, w);
    SmallIsExact(x + y, w);
  }

  /** Two products of a word with a hundredth of one fit into a double word. */
  lemma Headroom(word: nat, k: nat)
    requires word > 0 && 2 * k < word
    ensures word * k + word * k < word * word
  {
    ProductBound(word, 2 * k + 1, word, word);
    assert word * (2 * k + 1) == word * k + word * k + word;
  }

  lemma HundredthIsExact(product: nat, w: nat)
    requires product < w
    ensures product % w / 100 == product / 100 <= w / 100
  {
  }

  /**
   * No product or sum of the test wraps, because a discounted requirement is at most a hundredth of the range of a
   * word. This holds for words of any size, in particular for 128 bits with products of 256.
   */
  lemma SufficiencyIsPays(quote: TransferFee, discount: nat, provided: Fee, word: nat)
    requires discount <= 100 && word > 0 && NoOverflow(quote, discount, word)
    requires provided.fee < word && provided.nativeFee < word
    ensures Suffices(quote, discount, provided, word) <==>
            Pays(NativeDue(quote, discount), TokenDue(quote, discount), provided)
  {
    DuesAreExact(quote, discount, word);
    Headroom(word, word / 100);
    CoversIsPays(NativeDue(quote, discount), TokenDue(quote, discount), provided, word, word / 100, word * word);
  }

  lemma DuesAreExact(quote: TransferFee, discount: nat, word: nat)
    requires discount <= 100 && word > 0 && NoOverflow(quote, discount, word)
    ensures var d := ApplyDiscount(quote, discount, word);
            && OrZero(d.nativeTokenFee) == NativeDue(quote, discount) <= word / 100
            && OrZero(d.transferredTokenFee) == TokenDue(quote, discount) <= word / 100
  {
    DueIsExact(OrZero(quote.nativeTokenFee), discount, word);
    DueIsExact(OrZero(quote.transferredTokenFee), discount, word);
  }

  lemma DueIsExact(fee: nat, discount: nat, word: nat)
    requires discount <= 100 && word > 0 && fee * (100 - discount) < word
    ensures DiscountOne(fee, discount, word) == fee * (100 - discount) / 100 <= word / 100
  {
    HundredthIsExact(fee * (100 - discount), word);
  }

  lemma FractionSum(f: real, t: real, p: real, n: real)
    requires t > 0.0 && n > 0.0
    ensures f / t + p / n >= 1.0 <==> f * n + p * t >= t * n
  {
    var x, y := f / t, p / n;
    assert f == x * t && p == y * n;
    assert f * n + p * t == (x + y) * (t * n);
    assert t * n > 0.0;
    if x + y >= 1.0 {
      assert ((x + y) - 1.0) * (t * n) >= 0.0;
    } else {
      assert (1.0 - (x + y)) * (t * n) > 0.0;
    }
  }

  lemma IntProducts(f: nat, t: nat, p: nat, n: nat)
    ensures f as real * n as real + p as real * t as real >= t as real * n as real <==> f * n + p * t >= t * n
  {
    assert (f * n) as real == f as real * n as real;
    assert (p * t) as real == p as real * t as real;
    assert (t * n) as real == t as real * n as real;
  }

  lemma PaysIffFractionsReachOne(n: nat, t: nat, provided: Fee)
    requires n > 0 && t > 0
    ensures Pays(n, t, provided) <==> provided.fee as real / t as real + provided.nativeFee as real / n as real >= 1.0
  {
    FractionSum(provided.fee as real, t as real, provided.nativeFee as real, n as real);
    IntProducts(provided.fee, t, provided.nativeFee, n);
  }

  /**
   * Fee sufficiency, exactly: with both discounted requirements positive a fee suffices if and only if the paid
   * fractions of the two requirements add up to at least one.
   */
  lemma SufficientIffFractionsReachOne(quote: TransferFee, discount: nat, provided: Fee, word: nat)
    requires discount <= 100 && word > 0 && NoOverflow(quote, discount, word)
    requires provided.fee < word && provided.nativeFee < word
    ensures var n, t := NativeDue(quote, discount), TokenDue(quote, discount);
            n > 0 && t > 0 ==>
              (Suffices(quote, discount, provided, word) <==>
               provided.fee as real / t as real + provided.nativeFee as real / n as real >= 1.0)
  {
    var n, t := NativeDue(quote, discount), TokenDue(quote, discount);
    SufficiencyIsPays(quote, discount, provided, word);
    if n > 0 && t > 0 { PaysIffFractionsReachOne(n, t, provided); }
  }

  /** Paying more never hurts. */
  lemma PayingMoreSuffices(native: nat, token: nat, less: Fee, more: Fee)
    requires less.fee <= more.fee && less.nativeFee <= more.nativeFee
    requires Pays(native, token, less)
    ensures Pays(native, token, more)
  {
    ProductBound(less.fee, native, more.fee, native);
    ProductBound(less.nativeFee, token, more.nativeFee, token);
  }

  /** One component of the requirement may shrink, as long as it stays positive. */
  lemma SmallerTokenDueSuffices(native: nat, token: nat, smaller: nat, provided: Fee)
    requires native > 0 && 0 < smaller <= token && Pays(native, token, provided)
    ensures Pays(native, smaller, provided)
  {
    var f, p := provided.fee, provided.nativeFee;
    if p >= native {
      ProductBound(native, smaller, p, smaller);
    } else {
      ProductBound(native - p, smaller, native - p, token);
      assert (native - p) * smaller == smaller * native - p * smaller;
      assert (native - p) * token == token * native - p * token;
    }
  }

  /** Requirements that shrink and stay positive are met by whatever met them before. */
  lemma SmallerDuesSuffice(native: nat, token: nat, native': nat, token': nat, provided: Fee)
    requires 0 < native' <= native && 0 < token' <= token && Pays(native, token, provided)
    ensures Pays(native', token', provided)
  {
    SmallerTokenDueSuffices(native, token, token', provided);
    var swapped := Fee(provided.nativeFee, provided.fee);
    assert Pays(token', native, swapped);
    SmallerTokenDueSuffices(token', native, native', swapped);
  }

  lemma DuesShrink(fee: nat, d: nat, e: nat)
    requires d <= e <= 100
    ensures fee * (100 - e) / 100 <= fee * (100 - d) / 100
  {
    ProductBound(fee, 100 - e, fee, 100 - d);
  }

  /** Whatever suffices at discount `d` suffices at discount `e`. */
  ghost predicate DiscountHelps(quote: TransferFee, d: nat, e: nat)
    requires d <= 100 && e <= 100
  {
    forall provided: Fee :: Pays(NativeDue(quote, d), TokenDue(quote, d), provided)
                        ==> Pays(NativeDue(quote, e), TokenDue(quote, e), provided)
  }

  /**
   * Raising the discount keeps every sufficient fee sufficient exactly unless it rounds one of two positive
   * requirements to zero and leaves the other.
   */
  lemma DiscountHelpsIff(quote: TransferFee, d: nat, e: nat)
    requires d <= e <= 100
    ensures DiscountHelps(quote, d, e) <==>
            !(NativeDue(quote, d) > 0 && TokenDue(quote, d) > 0 && (NativeDue(quote, e) == 0) != (TokenDue(quote, e) == 0))
  {
    var n, t, n', t' := NativeDue(quote, d), TokenDue(quote, d), NativeDue(quote, e), TokenDue(quote, e);
    DuesShrink(OrZero(quote.nativeTokenFee), d, e);
    DuesShrink(OrZero(quote.transferredTokenFee), d, e);
    if n > 0 && t > 0 && (n' == 0) != (t' == 0) {
      var provided := if n' == 0 then Fee(0, n) else Fee(t, 0);
      assert Pays(n, t, provided) && !Pays(n', t', provided);
    } else {
      forall provided: Fee | Pays(n, t, provided) ensures Pays(n', t', provided) {
        if n' > 0 && t' > 0 { SmallerDuesSuffice(n, t, n', t', provided); }
      }
    }
  }

  /** The discount turns this sufficient fee into an insufficient one, in words of any size that hold the products. */
  lemma DiscountBreaksSufficiency(word: nat)
    requires word > 10000
    ensures var quote, paid := TransferFee(Some(1), Some(100)), Fee(0, 1);
            Suffices(quote, 0, paid, word) && !Suffices(quote, 50, paid, word)
  {
    var quote, paid := TransferFee(Some(1), Some(100)), Fee(0, 1);
    SufficiencyIsPays(quote, 0, paid, word);
    SufficiencyIsPays(quote, 50, paid, word);
    assert NativeDue(quote, 0) == 1 && TokenDue(quote, 0) == 100 && NativeDue(quote, 50) == 0 && TokenDue(quote, 50) == 50;
  }

  // ----- The remembered quote -----

  type Quotes = map<string, TransferFee>

  /** One fee check: the action it demands, if any, and the quotes afterwards. `key` is absent if it cannot be built. */
  function Checked(quotes: Quotes, key: Option<string>, quote: TransferFee, rules: Rules, provided: Fee)
    : (Option<EventAction>, Quotes)
  {
    if IsFeeSufficient(quote, rules, provided) then (None, quotes)
    else if provided == Fee(0, 0) || key.None? then (Some(Drop), quotes)
    else if key.value !in quotes then (Some(Retry), quotes[key.value := quote])
    else if IsFeeSufficient(quotes[key.value], rules, provided) then (None, quotes)
    else (Some(Retry), quotes)
  }

  class FeeMapping {
    var quotes: Quotes
    const rules: Rules

    constructor (discount: nat)
      requires discount <= 100
      ensures quotes == map[] && rules == Terms(discount, U128)
    {
      quotes, rules := map[], Terms(discount, U128);
    }

    method CheckFee(key: Option<string>, quote: TransferFee, provided: Fee) returns (action: Option<EventAction>)
      modifies this
      ensures (action, quotes) == Checked(old(quotes), key, quote, rules, provided)
      ensures action == if IsFeeSufficient(quote, rules, provided) then None
                        else if provided == Fee(0, 0) || key.None? then Some(Drop)
                        else if key.value in old(quotes) && IsFeeSufficient(old(quotes)[key.value], rules, provided) then None
                        else Some(Retry)
      ensures quotes == if action == Some(Retry) && key.value !in old(quotes) then old(quotes)[key.value := quote]
                        else old(quotes)
    {
      if !IsFeeSufficient(quote, rules, provided) {
        if provided == Fee(0, 0) { return Some(Drop); }
        if key.None? { return Some(Drop); }
        if key.value in quotes {
          var historical := quotes[key.value];
          if !IsFeeSufficient(historical, rules, provided) { return Some(Retry); }
        } else {
          quotes := quotes[key.value := quote];
          return Some(Retry);
        }
      }
      return None;
    }
  }

  /** Which message a fee key comes with. */
  datatype Stage = NearOrUtxo | OtherChain(recipientOnNear: bool) | SignTransfer | NoFeeKey

  /** Whether this stage owns the key's cleanup, given how its worker ended. */
  predicate OwnsKey(stage: Stage, result: WorkerResult) {
    match stage
    case NearOrUtxo => result != Ok(Remove)
    case OtherChain(recipientOnNear) => recipientOnNear
    case SignTransfer => true
    case NoFeeKey => false
  }

  datatype Settlement = Settlement(stage: Stage, result: WorkerResult, expired: bool, landed: bool)

  /** The message left the queue, by the rules of `AckPolicy.HandleNatsAck`. */
  predicate LeftQueue(s: Settlement) { s.landed && Ends(s.result, s.expired) }

  predicate Cleans(s: Settlement) { LeftQueue(s) && OwnsKey(s.stage, s.result) }

  datatype Action =
    | Attempt(key: string, quote: TransferFee, provided: Fee)
    | Settle(key: string, settlement: Settlement)

  function Step(quotes: Quotes, a: Action, rules: Rules): Quotes
  {
    match a
    case Attempt(key, quote, provided) => Checked(quotes, Some(key), quote, rules, provided).1
    case Settle(key, settlement) => if Cleans(settlement) then quotes - {key} else quotes
  }

  function Exec(quotes: Quotes, acts: seq<Action>, rules: Rules): Quotes
    decreases |acts|
  {
    if acts == [] then quotes else Exec(Step(quotes, acts[0], rules), acts[1..], rules)
  }

  /** No settlement of the run cleans the key. */
  predicate NotCleaned(acts: seq<Action>, key: string) {
    forall i :: 0 <= i < |acts| && acts[i].Settle? && acts[i].key == key ==> !Cleans(acts[i].settlement)
  }

  lemma {:induction false} QuoteStays(quotes: Quotes, acts: seq<Action>, rules: Rules, key: string)
    requires key in quotes && NotCleaned(acts, key)
    ensures key in Exec(quotes, acts, rules) && Exec(quotes, acts, rules)[key] == quotes[key]
    decreases |acts|
  {
    if acts != [] {
      assert acts[0].Settle? && acts[0].key == key ==> !Cleans(acts[0].settlement);
      QuoteStays(Step(quotes, acts[0], rules), acts[1..], rules, key);
    }
  }

  /**
   * First quote sticks: after the first rejection of a transfer, and until an owning stage's terminal answer
   * lands, an attempt with a nonzero fee proceeds if and only if the fee meets the current quote or the one of
   * that first rejection, whatever other attempts, stages and transfers did in between.
   */
  lemma FirstQuoteSticks(quotes: Quotes, first: TransferFee, paid: Fee, acts: seq<Action>, rules: Rules, key: string,
                         quote: TransferFee, provided: Fee)
    requires key !in quotes
    requires paid != Fee(0, 0) && !IsFeeSufficient(first, rules, paid)
    requires NotCleaned(acts, key) && provided != Fee(0, 0)
    ensures var later := Exec(Step(quotes, Attempt(key, first, paid), rules), acts, rules);
            Checked(later, Some(key), quote, rules, provided).0.None? <==>
            IsFeeSufficient(quote, rules, provided) || IsFeeSufficient(first, rules, provided)
  {
    var rejected := Step(quotes, Attempt(key, first, paid), rules);
    assert key in rejected && rejected[key] == first;
    QuoteStays(rejected, acts, rules, key);
  }

  /**
   * Cleanup, exactly: one settlement of the transfer separates an attempt from its first quote if and only if the
   * message left the queue and its stage owns the key; the attempt is then judged by its own quote alone.
   */
  lemma QuoteForgottenIff(quotes: Quotes, s: Settlement, rules: Rules, key: string, quote: TransferFee, provided: Fee)
    requires key in quotes && provided != Fee(0, 0)
    ensures var later := Step(quotes, Settle(key, s), rules);
            IsFeeSufficient(quotes[key], rules, provided) && !IsFeeSufficient(quote, rules, provided) ==>
              (Checked(later, Some(key), quote, rules, provided).0.Some? <==> LeftQueue(s) && OwnsKey(s.stage, s.result))
  {
    var later := Step(quotes, Settle(key, s), rules);
    if Cleans(s) { assert key !in later; } else { assert later == quotes; }
  }

  // ----- What is remembered after a run -----

  /** The quote of the first rejected attempt of the transfer since its key was last cleaned, if there was one. */
  function Remembered(acts: seq<Action>, rules: Rules, key: string): Option<TransferFee> {
    if acts == [] then None
    else
      var earlier := Remembered(acts[..|acts| - 1], rules, key);
      match acts[|acts| - 1]
      case Settle(k, s) => if k == key && s.landed && Ends(s.result, s.expired) && OwnsKey(s.stage, s.result) then None else earlier
      case Attempt(k, quote, paid) =>
        if k == key && earlier.None? && paid != Fee(0, 0) && !IsFeeSufficient(quote, rules, paid) then Some(quote) else earlier
  }

  lemma {:induction false} ExecSnoc(quotes: Quotes, acts: seq<Action>, last: Action, rules: Rules)
    ensures Exec(quotes, acts + [last], rules) == Step(Exec(quotes, acts, rules), last, rules)
    decreases |acts|
  {
    if acts == [] {
      assert acts + [last] == [last];
      assert Exec(Step(quotes, last, rules), [], rules) == Step(quotes, last, rules);
    } else {
      assert (acts + [last])[1..] == acts[1..] + [last];
      ExecSnoc(Step(quotes, acts[0], rules), acts[1..], last, rules);
    }
  }

  function Get(quotes: Quotes, key: string): Option<TransferFee> { if key in quotes then Some(quotes[key]) else None }

  /** What one action does to the quote of one transfer. */
  lemma StepForKey(quotes: Quotes, a: Action, rules: Rules, key: string)
    ensures Get(Step(quotes, a, rules), key) ==
            match a
            case Settle(k, s) => if k == key && Cleans(s) then None else Get(quotes, key)
            case Attempt(k, quote, paid) =>
              if k == key && key !in quotes && paid != Fee(0, 0) && !IsFeeSufficient(quote, rules, paid) then Some(quote)
              else Get(quotes, key)
  {
  }

  lemma {:induction false} QuotesAfterRun(acts: seq<Action>, rules: Rules, key: string)
    ensures Remembered(acts, rules, key) == Get(Exec(map[], acts, rules), key)
  {
    if acts != [] {
      var init, last := acts[..|acts| - 1], acts[|acts| - 1];
      assert acts == init + [last];
      QuotesAfterRun(init, rules, key);
      ExecSnoc(map[], init, last, rules);
      StepForKey(Exec(map[], init, rules), last, rules, key);
    }
  }

  /**
   * After any run of attempts and settlements, of this transfer and others, an attempt with a nonzero fee proceeds if
   * and only if the fee meets the current quote or the remembered one.
   */
  lemma ProceedsIff(acts: seq<Action>, rules: Rules, key: string, quote: TransferFee, provided: Fee)
    requires provided != Fee(0, 0)
    ensures var first := Remembered(acts, rules, key);
            Checked(Exec(map[], acts, rules), Some(key), quote, rules, provided).0.None? <==>
            IsFeeSufficient(quote, rules, provided) || (first.Some? && IsFeeSufficient(first.value, rules, provided))
  {
    QuotesAfterRun(acts, rules, key);
  }

  /**
   * A rejection and the stream: a rejected transfer that offers a fee and has a key is handed back until it expires;
   * one without a fee, or without a key, is given up as soon as its answer lands.
   */
  lemma RejectionEndsIff(quotes: Quotes, key: Option<string>, quote: TransferFee, rules: Rules, provided: Fee, expired: bool)
    ensures var action := Checked(quotes, key, quote, rules, provided).0;
            action.Some? ==> (Ends(Ok(action.value), expired) <==> expired || provided == Fee(0, 0) || key.None?)
  {
  }

  /** Who forgets a quote: stage by stage, what has to come of a message that left the queue. */
  lemma ForgottenByStage(quotes: Quotes, s: Settlement, rules: Rules, key: string)
    requires key in quotes
    ensures key !in Step(quotes, Settle(key, s), rules) <==>
            s.landed && match s.stage
                        case NearOrUtxo => s.result == Ok(Drop) || (s.expired && s.result != Ok(Remove))
                        case OtherChain(onNear) => onNear && (s.result == Ok(Remove) || s.result == Ok(Drop) || s.expired)
                        case SignTransfer => s.result == Ok(Remove) || s.result == Ok(Drop) || s.expired
                        case NoFeeKey => false
  {
  }
}
