/**
  Deciding what the watched wallet received in one transaction: native SOL
  transfers are scanned first, token transfers only when no native transfer
  qualifies, and in each scan the first entry that pays the wallet from some
  other account wins.
 */
module Classifier {
  import opened Wrappers

  /** Lamports in one SOL. */
  const LamportsPerSol: nat := 1000000000

  /** The mint address under which native SOL is priced. */
  const NativeMint: string := "So11111111111111111111111111111111111111112"

  /** A native transfer as the indexer reports it, in lamports. */
  datatype NativeTransfer = NativeTransfer(fromUserAccount: string, toUserAccount: string, amount: int)

  /** A token transfer as the indexer reports it; `tokenAmount` is already
      scaled by the token's decimals. */
  datatype TokenTransfer = TokenTransfer(fromUserAccount: string, toUserAccount: string,
                                         tokenAmount: real, mint: string, tokenStandard: string)

  datatype Transaction = Transaction(nativeTransfers: seq<NativeTransfer>, tokenTransfers: seq<TokenTransfer>)

  datatype AssetKind = Sol | Token

  datatype ReceivedAsset = ReceivedAsset(kind: AssetKind, amount: real, mint: string)

  /** An entry counts as a receipt when it pays the wallet and does not
      come from the wallet itself. */
  predicate IsReceipt(wallet: string, from: string, to: string) {
    to == wallet && from != wallet
  }

  predicate ReceivesNative(wallet: string, t: NativeTransfer) {
    IsReceipt(wallet, t.fromUserAccount, t.toUserAccount)
  }

  predicate ReceivesToken(wallet: string, t: TokenTransfer) {
    IsReceipt(wallet, t.fromUserAccount, t.toUserAccount)
  }

  /** Lamports to SOL, exactly. */
  function LamportsToSol(lamports: int): (sol: real)
    ensures sol * LamportsPerSol as real == lamports as real
  {
    lamports as real / LamportsPerSol as real
  }

  function NativeAsset(t: NativeTransfer): ReceivedAsset {
    ReceivedAsset(Sol, LamportsToSol(t.amount), NativeMint)
  }

  function TokenAsset(t: TokenTransfer): ReceivedAsset {
    ReceivedAsset(Token, t.tokenAmount, t.mint)
  }

  /** The first native receipt, if any. */
  function FirstNativeReceipt(wallet: string, ts: seq<NativeTransfer>): Option<ReceivedAsset> {
    if ts == [] then None
    else if ReceivesNative(wallet, ts[0]) then Some(NativeAsset(ts[0]))
    else FirstNativeReceipt(wallet, ts[1..])
  }

  /** The first token receipt, if any. */
  function FirstTokenReceipt(wallet: string, ts: seq<TokenTransfer>): Option<ReceivedAsset> {
    if ts == [] then None
    else if ReceivesToken(wallet, ts[0]) then Some(TokenAsset(ts[0]))
    else FirstTokenReceipt(wallet, ts[1..])
  }

  /** What the wallet received: a native receipt takes precedence over any
      token receipt. */
  function Received(wallet: string, tx: Transaction): Option<ReceivedAsset> {
    match FirstNativeReceipt(wallet, tx.nativeTransfers)
    case Some(a) => Some(a)
    case None => FirstTokenReceipt(wallet, tx.tokenTransfers)
  }

  /** The scans as the program runs them: two loops that stop at the first
      receipt, the second one entered only while nothing has been found. */
  method ClassifyReceived(wallet: string, tx: Transaction) returns (asset: Option<ReceivedAsset>)
    ensures asset == Received(wallet, tx)
  {
    asset := None;
    var natives := tx.nativeTransfers;
    var i := 0;
    while i < |natives|
      invariant 0 <= i <= |natives|
      invariant asset.None?
      invariant FirstNativeReceipt(wallet, natives[i..]) == FirstNativeReceipt(wallet, natives)
    {
      var inst := natives[i];
      assert natives[i..][1..] == natives[i + 1..];
      if inst.toUserAccount == wallet && inst.fromUserAccount != wallet {
        asset := Some(ReceivedAsset(Sol, inst.amount as real / LamportsPerSol as real, NativeMint));
        break;
      }
      i := i + 1;
    }
    if asset.None? {
      assert natives[i..] == [];
      var tokens := tx.tokenTransfers;
      var j := 0;
      while j < |tokens|
        invariant 0 <= j <= |tokens|
        invariant asset.None?
        invariant FirstTokenReceipt(wallet, tokens[j..]) == FirstTokenReceipt(wallet, tokens)
      {
        var inst := tokens[j];
        assert tokens[j..][1..] == tokens[j + 1..];
        if inst.toUserAccount == wallet && inst.fromUserAccount != wallet {
          asset := Some(ReceivedAsset(Token, inst.tokenAmount, inst.mint));
          break;
        }
        j := j + 1;
      }
      if asset.None? {
        assert tokens[j..] == [];
      }
    }
  }

  /** The native scan finds the first receipt: none at all exactly when no
      entry qualifies, otherwise the one at the first qualifying index. */
  lemma {:induction false} FirstNativeReceiptIsFirst(wallet: string, ts: seq<NativeTransfer>, i: nat)
    requires i < |ts| && ReceivesNative(wallet, ts[i])
    requires forall k :: 0 <= k < i ==> !ReceivesNative(wallet, ts[k])
    ensures FirstNativeReceipt(wallet, ts) == Some(NativeAsset(ts[i]))
  {
    if i > 0 {
      assert forall k :: 0 <= k < i - 1 ==> ts[1..][k] == ts[k + 1];
      FirstNativeReceiptIsFirst(wallet, ts[1..], i - 1);
    }
  }

  lemma {:induction false} FirstNativeReceiptNone(wallet: string, ts: seq<NativeTransfer>)
    ensures FirstNativeReceipt(wallet, ts).None? <==> forall k :: 0 <= k < |ts| ==> !ReceivesNative(wallet, ts[k])
  {
    if ts != [] {
      FirstNativeReceiptNone(wallet, ts[1..]);
      assert forall k :: 1 <= k < |ts| ==> ts[k] == ts[1..][k - 1];
    }
  }

  /** The token scan finds the first receipt in the same way. */
  lemma {:induction false} FirstTokenReceiptIsFirst(wallet: string, ts: seq<TokenTransfer>, i: nat)
    requires i < |ts| && ReceivesToken(wallet, ts[i])
    requires forall k :: 0 <= k < i ==> !ReceivesToken(wallet, ts[k])
    ensures FirstTokenReceipt(wallet, ts) == Some(TokenAsset(ts[i]))
  {
    if i > 0 {
      assert forall k :: 0 <= k < i - 1 ==> ts[1..][k] == ts[k + 1];
      FirstTokenReceiptIsFirst(wallet, ts[1..], i - 1);
    }
  }

  lemma {:induction false} FirstTokenReceiptNone(wallet: string, ts: seq<TokenTransfer>)
    ensures FirstTokenReceipt(wallet, ts).None? <==> forall k :: 0 <= k < |ts| ==> !ReceivesToken(wallet, ts[k])
  {
    if ts != [] {
      FirstTokenReceiptNone(wallet, ts[1..]);
      assert forall k :: 1 <= k < |ts| ==> ts[k] == ts[1..][k - 1];
    }
  }

  /** A native receipt decides the result: SOL, the first qualifying entry's
      lamports in SOL, the native mint, whatever the token transfers say. */
  lemma ReceivedNative(wallet: string, tx: Transaction, i: nat)
    requires i < |tx.nativeTransfers| && ReceivesNative(wallet, tx.nativeTransfers[i])
    requires forall k :: 0 <= k < i ==> !ReceivesNative(wallet, tx.nativeTransfers[k])
    ensures Received(wallet, tx) == Some(ReceivedAsset(Sol, LamportsToSol(tx.nativeTransfers[i].amount), NativeMint))
  {
    FirstNativeReceiptIsFirst(wallet, tx.nativeTransfers, i);
  }

  /** Without a native receipt the first token receipt decides, with its
      amount and mint copied unchanged. */
  lemma ReceivedToken(wallet: string, tx: Transaction, j: nat)
    requires forall k :: 0 <= k < |tx.nativeTransfers| ==> !ReceivesNative(wallet, tx.nativeTransfers[k])
    requires j < |tx.tokenTransfers| && ReceivesToken(wallet, tx.tokenTransfers[j])
    requires forall k :: 0 <= k < j ==> !ReceivesToken(wallet, tx.tokenTransfers[k])
    ensures Received(wallet, tx) == Some(ReceivedAsset(Token, tx.tokenTransfers[j].tokenAmount, tx.tokenTransfers[j].mint))
  {
    FirstNativeReceiptNone(wallet, tx.nativeTransfers);
    FirstTokenReceiptIsFirst(wallet, tx.tokenTransfers, j);
  }

  /** Nothing is received exactly when no entry of either kind pays the
      wallet from another account. */
  lemma ReceivedNone(wallet: string, tx: Transaction)
    ensures Received(wallet, tx).None? <==>
              (forall k :: 0 <= k < |tx.nativeTransfers| ==> !ReceivesNative(wallet, tx.nativeTransfers[k]))
              && (forall k :: 0 <= k < |tx.tokenTransfers| ==> !ReceivesToken(wallet, tx.tokenTransfers[k]))
  {
    FirstNativeReceiptNone(wallet, tx.nativeTransfers);
    FirstTokenReceiptNone(wallet, tx.tokenTransfers);
  }

  /** The transaction with every entry the wallet sent removed. */
  function WithoutOwnSends(wallet: string, tx: Transaction): Transaction {
    Transaction(DropNativeFrom(wallet, tx.nativeTransfers), DropTokenFrom(wallet, tx.tokenTransfers))
  }

  function DropNativeFrom(wallet: string, ts: seq<NativeTransfer>): seq<NativeTransfer> {
    if ts == [] then []
    else if ts[0].fromUserAccount == wallet then DropNativeFrom(wallet, ts[1..])
    else [ts[0]] + DropNativeFrom(wallet, ts[1..])
  }

  function DropTokenFrom(wallet: string, ts: seq<TokenTransfer>): seq<TokenTransfer> {
    if ts == [] then []
    else if ts[0].fromUserAccount == wallet then DropTokenFrom(wallet, ts[1..])
    else [ts[0]] + DropTokenFrom(wallet, ts[1..])
  }

  lemma {:induction false} DropNativeFromInvisible(wallet: string, ts: seq<NativeTransfer>)
    ensures FirstNativeReceipt(wallet, DropNativeFrom(wallet, ts)) == FirstNativeReceipt(wallet, ts)
  {
    if ts != [] {
      DropNativeFromInvisible(wallet, ts[1..]);
      if ts[0].fromUserAccount != wallet {
        assert ([ts[0]] + DropNativeFrom(wallet, ts[1..]))[1..] == DropNativeFrom(wallet, ts[1..]);
      }
    }
  }

  lemma {:induction false} DropTokenFromInvisible(wallet: string, ts: seq<TokenTransfer>)
    ensures FirstTokenReceipt(wallet, DropTokenFrom(wallet, ts)) == FirstTokenReceipt(wallet, ts)
  {
    if ts != [] {
      DropTokenFromInvisible(wallet, ts[1..]);
      if ts[0].fromUserAccount != wallet {
        assert ([ts[0]] + DropTokenFrom(wallet, ts[1..]))[1..] == DropTokenFrom(wallet, ts[1..]);
      }
    }
  }

  /** Self-transfer exclusion: entries the wallet sent, to itself or to
      anyone else, have no effect on what it is found to have received. */
  lemma OwnSendsIgnored(wallet: string, tx: Transaction)
    ensures Received(wallet, WithoutOwnSends(wallet, tx)) == Received(wallet, tx)
  {
    DropNativeFromInvisible(wallet, tx.nativeTransfers);
    DropTokenFromInvisible(wallet, tx.tokenTransfers);
  }
}
