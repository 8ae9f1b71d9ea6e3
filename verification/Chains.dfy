/** The chains the relayer knows. */
module Chains {
  datatype ChainKind =
    | Near | Eth | Base | Arb | Bnb | Pol | Sol | Strk | Btc | Zcash | HyperEvm | Abs | Fogo | Aptos

  predicate IsUtxoChain(chain: ChainKind) { chain.Btc? || chain.Zcash? }
}
