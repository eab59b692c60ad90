/**
  Handling of one transaction signature: fetch the transaction, find what the
  watched wallet received, price it, and produce a chat notification when its
  dollar value reaches the threshold.
 */
module Watcher {
  import opened Wrappers
  import opened Config
  import opened Classifier

  /** The smallest dollar value that is reported. */
  const MinUsdValue: real := 280.0

  /** Transactions are linked on the block explorer by appending the signature. */
  const ExplorerTxBase: string := "https://solscan.io/tx/"

  /** What the indexer answers while one event is handled: the transaction
      for each signature it can fetch, the unit price in dollars for each
      mint it can price, and for each mint whose metadata lookup answers,
      the symbol of the first record returned (None for an empty answer).
      A signature or mint missing from `transactions` or `prices` is one
      whose call failed or came back empty; a mint missing from `metadata`
      is one whose lookup failed, since an empty answer is `None`. */
  datatype Provider = Provider(transactions: map<string, Transaction>,
                               prices: map<string, real>,
                               metadata: map<string, Option<string>>)

  /** The chat message, with its rendered numbers left as values. */
  datatype Notification = Notification(chatId: string, totalUsd: real, ticker: string,
                                       amount: real, link: string)

  /** How the handling of one signature ends. */
  datatype Outcome =
    | NoTransaction             // the transaction could not be fetched
    | NotReceived               // the wallet received nothing, or only sent
    | NoPrice                   // the received asset has no price
    | NoMetadata                // the token's metadata lookup failed
    | BelowThreshold(totalUsd: real)
    | Notify(message: Notification)

  function ExplorerLink(signature: string): (link: string)
    ensures |link| == |ExplorerTxBase| + |signature|
    ensures link[..|ExplorerTxBase|] == ExplorerTxBase && link[|ExplorerTxBase|..] == signature
  {
    ExplorerTxBase + signature
  }

  /** Distinct transactions get distinct links. */
  lemma ExplorerLinkInjective(a: string, b: string)
    requires ExplorerLink(a) == ExplorerLink(b)
    ensures a == b
  {
    assert a == ExplorerLink(a)[|ExplorerTxBase|..];
  }

  /** "SOL" unless the asset is a token whose metadata lookup returned a
      record, in which case that record's symbol. */
  function Ticker(asset: ReceivedAsset, metadata: map<string, Option<string>>): (ticker: string)
    ensures ticker != "SOL" ==> asset.kind == Token && asset.mint in metadata && metadata[asset.mint] == Some(ticker)
    ensures asset.kind == Token && asset.mint in metadata && metadata[asset.mint].Some? ==>
              ticker == metadata[asset.mint].value
  {
    if asset.kind == Token && asset.mint in metadata && metadata[asset.mint].Some?
    then metadata[asset.mint].value
    else "SOL"
  }

  /** The handling of one signature, as a value. */
  function Assess(settings: Settings, provider: Provider, signature: string): Outcome {
    if signature !in provider.transactions then NoTransaction
    else match Received(settings.wallet, provider.transactions[signature])
      case None => NotReceived
      case Some(asset) =>
        if asset.mint !in provider.prices then NoPrice
        else
          var total := asset.amount * provider.prices[asset.mint];
          if total < MinUsdValue then BelowThreshold(total)
          else if asset.kind == Token && asset.mint !in provider.metadata then NoMetadata
          else Notify(Notification(settings.chatId, total, Ticker(asset, provider.metadata),
                                   asset.amount, ExplorerLink(signature)))
  }

  /** The handler as the program runs it, with the scans done by loops. */
  method ProcessTransaction(settings: Settings, provider: Provider, signature: string) returns (outcome: Outcome)
    ensures outcome == Assess(settings, provider, signature)
  {
    if signature !in provider.transactions {
      return NoTransaction;
    }
    var tx := provider.transactions[signature];
    var received := ClassifyReceived(settings.wallet, tx);
    if received.None? {
      return NotReceived;
    }
    var asset := received.value;
    if asset.mint !in provider.prices {
      return NoPrice;
    }
    var currentPrice := provider.prices[asset.mint];
    var totalUsdValue := asset.amount * currentPrice;
    if totalUsdValue >= MinUsdValue {
      var ticker := "SOL";
      if asset.kind == Token {
        if asset.mint !in provider.metadata {
          return NoMetadata;
        }
        var tokenMeta := provider.metadata[asset.mint];
        if tokenMeta.Some? {
          ticker := tokenMeta.value;
        }
      }
      var link := ExplorerTxBase + signature;
      outcome := Notify(Notification(settings.chatId, totalUsdValue, ticker, asset.amount, link));
    } else {
      outcome := BelowThreshold(totalUsdValue);
    }
  }

  /** A notification is produced exactly when the transaction is fetched,
      the wallet received something, that asset has a price, the amount
      times the price is at least the threshold (equality notifies), and,
      for a token, its metadata lookup answered. */
  lemma AssessNotifiesIff(settings: Settings, provider: Provider, signature: string)
    ensures Assess(settings, provider, signature).Notify? <==>
              && signature in provider.transactions
              && var r := Received(settings.wallet, provider.transactions[signature]);
              && r.Some?
              && r.value.mint in provider.prices
              && r.value.amount * provider.prices[r.value.mint] >= MinUsdValue
              && (r.value.kind == Token ==> r.value.mint in provider.metadata)
  {
  }

  /** What a notification carries: the chat from the configuration, the
      dollar value (at least the threshold), the ticker, the received amount
      and the explorer link of the signature. */
  lemma AssessNotification(settings: Settings, provider: Provider, signature: string)
    requires Assess(settings, provider, signature).Notify?
    ensures signature in provider.transactions
    ensures var n := Assess(settings, provider, signature).message;
            var asset := Received(settings.wallet, provider.transactions[signature]).value;
            && asset.mint in provider.prices
            && n.chatId == settings.chatId
            && n.totalUsd == asset.amount * provider.prices[asset.mint] >= MinUsdValue
            && n.amount == asset.amount
            && (asset.kind == Sol ==> n.ticker == "SOL")
            && (asset.kind == Token ==> asset.mint in provider.metadata)
            && (asset.kind == Token ==>
                  n.ticker == match provider.metadata[asset.mint]
                              case Some(symbol) => symbol
                              case None => "SOL")
            && n.link == "https://solscan.io/tx/" + signature
  {
  }

  /** A missing price stops the handling before any comparison. */
  lemma AssessNoPrice(settings: Settings, provider: Provider, signature: string)
    requires signature in provider.transactions
    requires Received(settings.wallet, provider.transactions[signature]).Some?
    requires Received(settings.wallet, provider.transactions[signature]).value.mint !in provider.prices
    ensures Assess(settings, provider, signature) == NoPrice
  {
  }

  /** A token worth reporting whose metadata lookup fails ends the handling
      without a message, instead of falling back to "SOL". */
  lemma AssessNoMetadata(settings: Settings, provider: Provider, signature: string)
    requires signature in provider.transactions
    requires var r := Received(settings.wallet, provider.transactions[signature]);
             && r.Some? && r.value.kind == Token
             && r.value.mint in provider.prices
             && r.value.amount * provider.prices[r.value.mint] >= MinUsdValue
             && r.value.mint !in provider.metadata
    ensures Assess(settings, provider, signature) == NoMetadata
  {
  }

  /** A transaction in which every entry that pays the wallet was also sent
      by it never leads to a notification. */
  lemma SelfTransfersNeverNotify(settings: Settings, provider: Provider, signature: string)
    requires signature in provider.transactions
    requires var tx := provider.transactions[signature];
             && (forall k :: 0 <= k < |tx.nativeTransfers| ==>
                   tx.nativeTransfers[k].toUserAccount == settings.wallet ==> tx.nativeTransfers[k].fromUserAccount == settings.wallet)
             && (forall k :: 0 <= k < |tx.tokenTransfers| ==>
                   tx.tokenTransfers[k].toUserAccount == settings.wallet ==> tx.tokenTransfers[k].fromUserAccount == settings.wallet)
    ensures Assess(settings, provider, signature) == NotReceived
  {
    ReceivedNone(settings.wallet, provider.transactions[signature]);
  }

  /** 2.5 SOL received at $0.12 is worth $0.30, below the threshold. */
  lemma SmallNativeReceiptIsQuiet(settings: Settings, signature: string)
    requires settings.wallet != "sender"
    ensures var tx := Transaction([NativeTransfer("sender", settings.wallet, 2500000000)], []);
            var provider := Provider(map[signature := tx], map[NativeMint := 0.12], map[]);
            Assess(settings, provider, signature) == BelowThreshold(0.3)
  {
    var tx := Transaction([NativeTransfer("sender", settings.wallet, 2500000000)], []);
    ReceivedNative(settings.wallet, tx, 0);
  }

  /** 1000 tokens at $0.35 are worth $350, so the receipt is reported with
      the token's symbol and the transaction's link. */
  lemma LargeTokenReceiptNotifies(settings: Settings, signature: string, mint: string, symbol: string)
    requires settings.wallet != "sender"
    ensures var tx := Transaction([], [TokenTransfer("sender", settings.wallet, 1000.0, mint, "spl-token")]);
            var provider := Provider(map[signature := tx], map[mint := 0.35], map[mint := Some(symbol)]);
            Assess(settings, provider, signature)
              == Notify(Notification(settings.chatId, 350.0, symbol, 1000.0, "https://solscan.io/tx/" + signature))
  {
    var tx := Transaction([], [TokenTransfer("sender", settings.wallet, 1000.0, mint, "spl-token")]);
    ReceivedToken(settings.wallet, tx, 0);
  }

  /** 3 SOL received at $100 are worth $300 and are reported as SOL; no
      metadata lookup is involved. */
  lemma LargeNativeReceiptNotifies(settings: Settings, signature: string)
    requires settings.wallet != "sender"
    ensures var tx := Transaction([NativeTransfer("sender", settings.wallet, 3000000000)], []);
            var provider := Provider(map[signature := tx], map[NativeMint := 100.0], map[]);
            Assess(settings, provider, signature)
              == Notify(Notification(settings.chatId, 300.0, "SOL", 3.0, "https://solscan.io/tx/" + signature))
  {
    var tx := Transaction([NativeTransfer("sender", settings.wallet, 3000000000)], []);
    ReceivedNative(settings.wallet, tx, 0);
  }
}
