/** The page session: the wallet connection, the contract handle, the icon
    cache, the selected icon, the two forms and the notes panel, and the
    handlers that change them. Every call to the wallet or to the contract is
    a parameter carrying its outcome; the handlers that call out return the
    calls they issued, in order. */
module Session {
  import opened Codec
  import opened Ledger
  import opened Format
  import opened Inbox
  import opened Catalog
  import opened Messaging

  /** The text of the status element while no account is shown. */
  const NotConnected: string := "Not Connected"

  /** The contract instance: the deployed address and the signer it sends with. */
  datatype ContractHandle = ContractHandle(address: string, signer: string)

  /** How a purchase ended: stopped by the address check, failed (no cached
      listing, no contract, refused or reverted transaction), or confirmed. */
  datatype PurchaseResult = InvalidRecipient | PurchaseFailed | Purchased

  /** How a key registration ended. */
  datatype RegisterResult = KeyExportDenied | RegistrationFailed | Registered

  /** How a send ended: stopped by one of the checks, failed while encrypting,
      failed at the transaction, or confirmed. */
  datatype SendResult = Blocked(reason: SendBlock) | EncryptionFailed | SendFailed | Sent

  /** How an attempt to read a note ended. */
  datatype ReadResult = ReadFailed | Displayed(plaintext: string)

  class Client {
    /** A wallet provider was found when the page loaded. */
    const hasProvider: bool
    /** The deployed contract address the page was configured with. */
    const contractAddress: string

    var isConnected: bool
    var currentAddress: Option<string>
    var signer: Option<string>
    var contract: Option<ContractHandle>
    /** The text of the status element next to the connect button. */
    var statusText: string
    /** The handler attached to the send button. */
    var sendButton: SendButton

    /** The icon cache, indexed by icon id. */
    var iconCache: array<Option<CachedIcon>>
    var iconsView: IconsView

    /** The icon shown in the detail view, and whether that view is open
        (the grid is hidden while it is). */
    var selectedIconId: Option<int>
    var detailOpen: bool
    var detailType: nat
    var detailPrice: nat
    /** The recipient input of the detail view. */
    var detailRecipient: string

    /** The recipient and message inputs of the note form. */
    var noteRecipient: string
    var noteContent: string

    var notesView: NotesView
    /** The text of each content element of the notes panel, by note index. */
    var noteText: map<nat, string>
    /** The notes whose "Decrypt & Read" button is on the page. */
    var decryptButtons: set<nat>

    /** What holds between any two handlers: the parts below. */
    ghost predicate Valid()
      reads this`isConnected, this`signer, this`contract, this`selectedIconId, this`detailOpen,
        this`decryptButtons, this`noteText, this`iconCache, iconCache
    {
      Bound() && DetailConsistent() && PlaceholderWhileUnread() && CacheKeyed()
    }

    /** A connected session has a signer, and a contract exists only bound to
        that signer and to the configured address. */
    ghost predicate Bound()
      reads this`isConnected, this`signer, this`contract
    {
      (isConnected ==> signer.Some? && contract.Some?) &&
      (contract.Some? ==> signer.Some? && contract.value == ContractHandle(contractAddress, signer.value))
    }

    /** The detail view is open exactly when an icon is selected. */
    ghost predicate DetailConsistent()
      reads this`selectedIconId, this`detailOpen
    {
      selectedIconId.Some? <==> detailOpen
    }

    /** A note that still offers decryption shows the placeholder. */
    ghost predicate PlaceholderWhileUnread()
      reads this`decryptButtons, this`noteText
    {
      forall k :: k in decryptButtons ==> k in noteText && noteText[k] == Placeholder
    }

    /** Each cache entry sits at its own id. */
    ghost predicate CacheKeyed()
      reads this`iconCache, iconCache
    {
      forall i :: 0 <= i < iconCache.Length && iconCache[i].Some? ==> iconCache[i].value.id == i
    }

    /** The page without a session: no account, signer or contract, the
        status text and the panel prompts shown, no handler on the send button,
        no note content elements, the detail view closed and the note form
        empty. */
    ghost predicate SignedOut()
      reads this
    {
      !isConnected && currentAddress.None? && signer.None? && contract.None? &&
      statusText == NotConnected && sendButton == NoHandler &&
      iconsView == IconsPrompt && notesView == NotesPrompt && noteText == map[] && decryptButtons == {} &&
      !detailOpen && selectedIconId.None? &&
      noteRecipient == [] && noteContent == []
    }

    /** The cache entry for `id`; ids outside the cache have none. */
    function CachedEntry(id: int): (e: Option<CachedIcon>)
      reads this`iconCache, iconCache
      ensures !(0 <= id < iconCache.Length) ==> e.None?
      ensures CacheKeyed() && e.Some? ==> e.value.id == id
    {
      if 0 <= id < iconCache.Length then iconCache[id] else None
    }

    /** The label of the detail view. */
    function DetailName(): string
      reads this`detailType
    {
      DisplayName(detailType)
    }

    /** The page as loaded: disconnected, prompts in every panel, an empty
        cache, the detail view closed and the forms empty. */
    constructor(hasProvider: bool, contractAddress: string)
      ensures Valid() && SignedOut()
      ensures this.hasProvider == hasProvider && this.contractAddress == contractAddress
      ensures iconCache.Length == 0 && detailRecipient == []
    {
      this.hasProvider := hasProvider;
      this.contractAddress := contractAddress;
      isConnected := false;
      currentAddress := None;
      signer := None;
      contract := None;
      statusText := NotConnected;
      sendButton := NoHandler;
      iconCache := new Option<CachedIcon>[0];
      iconsView := IconsPrompt;
      selectedIconId := None;
      detailOpen := false;
      detailType := 0;
      detailPrice := 0;
      detailRecipient := [];
      noteRecipient := [];
      noteContent := [];
      notesView := NotesPrompt;
      noteText := map[];
      decryptButtons := {};
    }

    /** Asks the wallet for its accounts (`accounts` is None when the request
        throws) and for a signer (`signerAccount` is None when that throws),
        then builds the contract and shows the account. The first account is
        stored before the signer is asked for; the session is flagged connected
        before the address is formatted, so an empty account list with a
        signer that is still granted leaves it flagged connected with the old
        status text and no reload. `reload`
        says the handler ended by starting LoadData. */
    method ConnectWallet(accounts: Option<seq<string>>, signerAccount: Option<string>) returns (reload: bool)
      requires Valid()
      modifies this`currentAddress, this`signer, this`contract, this`isConnected, this`statusText
      ensures Valid()
      ensures !hasProvider || accounts.None? ==>
        currentAddress == old(currentAddress) && signer == old(signer) && contract == old(contract) &&
        isConnected == old(isConnected)
      ensures hasProvider && accounts.Some? ==>
        currentAddress == (if |accounts.value| > 0 then Some(accounts.value[0]) else None)
      ensures hasProvider && accounts.Some? && signerAccount.None? ==>
        signer == old(signer) && contract == old(contract) && isConnected == old(isConnected)
      ensures hasProvider && accounts.Some? && signerAccount.Some? ==>
        isConnected && signer == signerAccount && contract == Some(ContractHandle(contractAddress, signerAccount.value))
      ensures reload <==> hasProvider && accounts.Some? && |accounts.value| > 0 && signerAccount.Some?
      ensures reload ==> statusText == ShortAddress(accounts.value[0])
      ensures !reload ==> statusText == old(statusText)
    {
      reload := false;
      if !hasProvider {
        return;
      }
      if accounts.None? {
        return;
      }
      currentAddress := if |accounts.value| > 0 then Some(accounts.value[0]) else None;
      if signerAccount.None? {
        return;
      }
      signer := signerAccount;
      contract := Some(ContractHandle(contractAddress, signerAccount.value));
      isConnected := true;
      if currentAddress.None? {
        return;
      }
      statusText := ShortAddress(currentAddress.value);
      reload := true;
    }

    /** Closes the detail view and shows the grid again. */
    method CloseDetailView()
      requires Valid()
      modifies this`detailOpen, this`selectedIconId
      ensures Valid()
      ensures !detailOpen && selectedIconId.None?
    {
      detailOpen := false;
      selectedIconId := None;
    }

    /** The account part of a reset: no account, signer or contract, the
        status text back, and no handler on the send button. */
    method ForgetAccount()
      requires Valid()
      modifies this`isConnected, this`currentAddress, this`signer, this`contract, this`statusText, this`sendButton
      ensures Valid()
      ensures !isConnected && currentAddress.None? && signer.None? && contract.None?
      ensures statusText == NotConnected && sendButton == NoHandler
    {
      isConnected, currentAddress, signer, contract := false, None, None, None;
      statusText := NotConnected;
      sendButton := NoHandler;
    }

    /** The panels show the prompts to connect, so no note content element or
        decrypt button is left on the page. */
    method ShowPrompts()
      requires Valid()
      modifies this`iconsView, this`notesView, this`noteText, this`decryptButtons
      ensures Valid()
      ensures iconsView == IconsPrompt && notesView == NotesPrompt && noteText == map[] && decryptButtons == {}
    {
      iconsView, notesView, noteText, decryptButtons := IconsPrompt, NotesPrompt, map[], {};
    }

    /** Resets the session: the account is forgotten, the panels show their
        prompts, the detail view closes and the note form is emptied. The icon
        cache and the detail view's recipient input are not touched. */
    method DisconnectWallet()
      requires Valid()
      modifies this`isConnected, this`currentAddress, this`signer, this`contract, this`statusText,
        this`sendButton, this`iconsView, this`notesView, this`noteText, this`decryptButtons,
        this`detailOpen, this`selectedIconId, this`noteRecipient, this`noteContent
      ensures Valid() && SignedOut()
    {
      ForgetAccount();
      ShowPrompts();
      CloseDetailView();
      noteRecipient, noteContent := [], [];
    }

    /** The connect button disconnects a connected session and connects
        otherwise. */
    method ConnectButtonClicked(accounts: Option<seq<string>>, signerAccount: Option<string>) returns (reload: bool)
      requires Valid()
      modifies this`isConnected, this`currentAddress, this`signer, this`contract, this`statusText,
        this`sendButton, this`iconsView, this`notesView, this`noteText, this`decryptButtons,
        this`detailOpen, this`selectedIconId, this`noteRecipient, this`noteContent
      ensures Valid()
      ensures old(isConnected) ==> SignedOut() && !reload
      ensures !old(isConnected) ==>
        sendButton == old(sendButton) && iconsView == old(iconsView) && notesView == old(notesView) &&
        noteText == old(noteText) && decryptButtons == old(decryptButtons) &&
        detailOpen == old(detailOpen) && selectedIconId == old(selectedIconId) &&
        noteRecipient == old(noteRecipient) && noteContent == old(noteContent)
      ensures !old(isConnected) && (!hasProvider || accounts.None?) ==>
        currentAddress == old(currentAddress) && signer == old(signer) && contract == old(contract) && !isConnected
      ensures !old(isConnected) && hasProvider && accounts.Some? ==>
        currentAddress == (if |accounts.value| > 0 then Some(accounts.value[0]) else None)
      ensures !old(isConnected) && hasProvider && accounts.Some? && signerAccount.None? ==>
        signer == old(signer) && contract == old(contract) && !isConnected
      ensures !old(isConnected) && hasProvider && accounts.Some? && signerAccount.Some? ==>
        isConnected && signer == signerAccount && contract == Some(ContractHandle(contractAddress, signerAccount.value))
      ensures reload <==> !old(isConnected) && hasProvider && accounts.Some? && |accounts.value| > 0 && signerAccount.Some?
      ensures reload ==> statusText == ShortAddress(accounts.value[0])
      ensures !old(isConnected) && !reload ==> statusText == old(statusText)
    {
      if isConnected {
        DisconnectWallet();
        reload := false;
      } else {
        reload := ConnectWallet(accounts, signerAccount);
      }
    }

    /** Reads the listing count and every listing (`ledger` is Failed when the
        count read throws; a null contract throws the same way) into a fresh
        cache and draws the grid. Afterwards the cache holds what the scan
        reached, as CachedAt says. */
    method LoadIcons(ledger: Fetch<seq<Fetch<Icon>>>)
      requires Valid()
      modifies this`iconCache, this`iconsView
      ensures Valid()
      ensures fresh(iconCache)
      ensures forall id: int ::
        CachedEntry(id) == (if contract.Some? && ledger.Fetched? then CachedAt(ledger.value, id) else None)
      ensures iconsView == IconsError <==> contract.None? || ledger.Failed? || !AllFetched(ledger.value)
      ensures contract.Some? && ledger.Fetched? && |ledger.value| == 0 ==> iconsView == NoIcons
      ensures contract.Some? && ledger.Fetched? && |ledger.value| > 0 && AllFetched(ledger.value) ==>
        iconsView == IconCards(Cards(Values(ledger.value)))
    {
      if contract.None? || ledger.Failed? {
        iconCache := new Option<CachedIcon>[0];
        iconsView := IconsError;
        return;
      }
      var icons := ledger.value;
      if |icons| == 0 {
        iconCache := new Option<CachedIcon>[0];
        iconsView := NoIcons;
        return;
      }
      var cache := new Option<CachedIcon>[|icons|](_ => None);
      iconsView := FillCatalog(cache, icons);
      iconCache := cache;
      forall i | 0 <= i < iconCache.Length && iconCache[i].Some?
        ensures iconCache[i].value.id == i
      {
        CachedAtExactly(icons, i);
      }
    }

    /** Reads the note count and every note (`ledger` is Failed when the count
        read throws; a null contract throws the same way) and draws the panel.
        With no account the panel still says "no notes" for an empty ledger,
        since the address is first used inside the loop. */
    method LoadNotes(ledger: Fetch<seq<Fetch<Note>>>)
      requires Valid()
      modifies this`notesView, this`noteText, this`decryptButtons
      ensures Valid()
      ensures notesView == NotesError <==>
        contract.None? || ledger.Failed? || (|ledger.value| > 0 && (currentAddress.None? || !AllFetched(ledger.value)))
      ensures contract.Some? && ledger.Fetched? && |ledger.value| == 0 ==> notesView == NoNotes
      ensures contract.Some? && ledger.Fetched? && currentAddress.Some? && AllFetched(ledger.value) ==>
        notesView == InboxView(Values(ledger.value), currentAddress.value)
      ensures noteText == ContentElements(notesView) && decryptButtons == UnreadListed(notesView)
    {
      var view: NotesView;
      if contract.None? || ledger.Failed? {
        view := NotesError;
      } else if currentAddress.None? {
        view := if |ledger.value| == 0 then NoNotes else NotesError;
      } else {
        view := ScanInbox(ledger.value, currentAddress.value);
        if |ledger.value| == 0 {
          assert InboxEntries(Values(ledger.value), currentAddress.value) == [];
        }
      }
      notesView := view;
      noteText := ContentElements(view);
      decryptButtons := UnreadListed(view);
    }

    /** Reads whether the user's own key is registered (`keyRead` is the
        outcome of that read) and attaches the matching handler to the send
        button; a read that throws leaves the button as it was. */
    method CheckUserStatus(keyRead: Fetch<Option<string>>) returns (calls: seq<Call>)
      requires Valid()
      modifies this`sendButton
      ensures Valid()
      ensures calls == if contract.Some? then [EncryptionKeys(currentAddress)] else []
      ensures sendButton == if contract.Some? && keyRead.Fetched? then ButtonFor(keyRead.value) else old(sendButton)
    {
      calls := [];
      if contract.None? {
        return;
      }
      calls := [EncryptionKeys(currentAddress)];
      if keyRead.Fetched? {
        sendButton := ButtonFor(keyRead.value);
      }
    }

    /** The reload after connecting or buying: the shop, then the notes panel,
        then the send button. The received cards are not part of this model. */
    method LoadData(icons: Fetch<seq<Fetch<Icon>>>, notes: Fetch<seq<Fetch<Note>>>, keyRead: Fetch<Option<string>>)
      returns (calls: seq<Call>)
      requires Valid()
      modifies this`iconCache, this`iconsView, this`notesView, this`noteText, this`decryptButtons, this`sendButton
      ensures Valid()
      ensures forall id: int ::
        CachedEntry(id) == (if contract.Some? && icons.Fetched? then CachedAt(icons.value, id) else None)
      ensures iconsView == IconsError <==> contract.None? || icons.Failed? || !AllFetched(icons.value)
      ensures contract.Some? && icons.Fetched? && |icons.value| == 0 ==> iconsView == NoIcons
      ensures contract.Some? && icons.Fetched? && |icons.value| > 0 && AllFetched(icons.value) ==>
        iconsView == IconCards(Cards(Values(icons.value)))
      ensures notesView == NotesError <==>
        contract.None? || notes.Failed? || (|notes.value| > 0 && (currentAddress.None? || !AllFetched(notes.value)))
      ensures contract.Some? && notes.Fetched? && |notes.value| == 0 ==> notesView == NoNotes
      ensures contract.Some? && notes.Fetched? && currentAddress.Some? && AllFetched(notes.value) ==>
        notesView == InboxView(Values(notes.value), currentAddress.value)
      ensures noteText == ContentElements(notesView) && decryptButtons == UnreadListed(notesView)
      ensures calls == if contract.Some? then [EncryptionKeys(currentAddress)] else []
      ensures sendButton == if contract.Some? && keyRead.Fetched? then ButtonFor(keyRead.value) else old(sendButton)
    {
      LoadIcons(icons);
      LoadNotes(notes);
      calls := CheckUserStatus(keyRead);
    }

    /** Opens the detail view of a cached listing: selects it, shows its type
        and price and clears the recipient input. An id without a cache entry
        changes nothing. */
    method OpenDetailIcon(id: int)
      requires Valid()
      modifies this`selectedIconId, this`detailOpen, this`detailType, this`detailPrice, this`detailRecipient
      ensures Valid()
      ensures CachedEntry(id).None? ==>
        selectedIconId == old(selectedIconId) && detailOpen == old(detailOpen) &&
        detailType == old(detailType) && detailPrice == old(detailPrice) && detailRecipient == old(detailRecipient)
      ensures CachedEntry(id).Some? ==>
        selectedIconId == Some(id) && detailOpen && detailRecipient == [] &&
        detailType == CachedEntry(id).value.iconType && detailPrice == CachedEntry(id).value.price
      ensures CachedEntry(id).Some? ==> DetailName() == DisplayName(CachedEntry(id).value.iconType)
    {
      var entry := CachedEntry(id);
      if entry.None? {
        return;
      }
      selectedIconId := Some(id);
      detailType := entry.value.iconType;
      detailPrice := entry.value.price;
      detailRecipient := [];
      detailOpen := true;
    }

    /** Buys listing `id` for the address in the detail view's input
        (`validRecipient` is the address check on it) and pays the cached
        price; `tx` is the outcome of the transaction. A confirmed purchase
        closes the detail view and ends by starting LoadData (`reload`). */
    method BuyIcon(id: int, validRecipient: bool, tx: TxOutcome)
      returns (result: PurchaseResult, calls: seq<Call>, reload: bool)
      requires Valid()
      modifies this`detailOpen, this`selectedIconId
      ensures Valid()
      ensures result == InvalidRecipient <==> !validRecipient
      ensures result == Purchased <==>
        validRecipient && contract.Some? && CachedEntry(id).Some? && tx == Confirmed
      ensures reload <==> result == Purchased
      ensures calls == [] <==> !validRecipient || contract.None? || CachedEntry(id).None?
      ensures calls != [] ==>
        calls[0] == Submit(BuyAndSendIcon(id, detailRecipient, CachedEntry(id).value.price)) &&
        |calls| <= 2 && calls == [Submit(calls[0].write), Wait(calls[0].write)][..|calls|] &&
        (|calls| == 2 <==> tx != Rejected)
      ensures result == Purchased ==> !detailOpen && selectedIconId.None?
      ensures result != Purchased ==> detailOpen == old(detailOpen) && selectedIconId == old(selectedIconId)
    {
      calls := [];
      reload := false;
      if !validRecipient {
        return InvalidRecipient, calls, reload;
      }
      var entry := CachedEntry(id);
      if contract.None? || entry.None? {
        return PurchaseFailed, calls, reload;
      }
      var w := BuyAndSendIcon(id, detailRecipient, entry.value.price);
      calls := [Submit(w)];
      if tx == Rejected {
        return PurchaseFailed, calls, reload;
      }
      calls := calls + [Wait(w)];
      if tx == Reverted {
        return PurchaseFailed, calls, reload;
      }
      CloseDetailView();
      result := Purchased;
      reload := true;
    }

    /** The buy button of the detail view: nothing without a selection,
        otherwise the purchase of the selected listing. */
    method BuyButtonClicked(validRecipient: bool, tx: TxOutcome)
      returns (result: Option<PurchaseResult>, calls: seq<Call>, reload: bool)
      requires Valid()
      modifies this`detailOpen, this`selectedIconId
      ensures Valid()
      ensures result.None? <==> old(selectedIconId).None?
      ensures result.None? ==>
        calls == [] && !reload && detailOpen == old(detailOpen) && selectedIconId == old(selectedIconId)
      ensures old(selectedIconId).Some? ==>
        (result == Some(InvalidRecipient) <==> !validRecipient) &&
        (result == Some(Purchased) <==>
          validRecipient && contract.Some? && CachedEntry(old(selectedIconId).value).Some? && tx == Confirmed) &&
        (reload <==> result == Some(Purchased)) &&
        (calls == [] <==> !validRecipient || contract.None? || CachedEntry(old(selectedIconId).value).None?)
      ensures old(selectedIconId).Some? && calls != [] ==>
        calls[0] == Submit(BuyAndSendIcon(old(selectedIconId).value, detailRecipient,
                                          CachedEntry(old(selectedIconId).value).value.price)) &&
        |calls| <= 2 && calls == [Submit(calls[0].write), Wait(calls[0].write)][..|calls|] &&
        (|calls| == 2 <==> tx != Rejected)
      ensures result == Some(Purchased) ==> !detailOpen && selectedIconId.None?
      ensures result != Some(Purchased) ==> detailOpen == old(detailOpen) && selectedIconId == old(selectedIconId)
    {
      if selectedIconId.None? {
        return None, [], false;
      }
      var r;
      r, calls, reload := BuyIcon(selectedIconId.value, validRecipient, tx);
      result := Some(r);
    }

    /** Registers the wallet's encryption key: asks the wallet to export it
        (`exported` is None when that throws), sends it to the contract, waits
        for the transaction and then checks the status again with `recheck`. */
    method RegisterPublicKey(exported: Option<string>, tx: TxOutcome, recheck: Fetch<Option<string>>)
      returns (result: RegisterResult, calls: seq<Call>)
      requires Valid()
      modifies this`sendButton
      ensures Valid()
      ensures result == KeyExportDenied <==> exported.None?
      ensures result == Registered <==> exported.Some? && contract.Some? && tx == Confirmed
      ensures calls != [] && calls[0] == EthGetEncryptionPublicKey(currentAddress)
      ensures |calls| == 1 <==> exported.None? || contract.None?
      ensures |calls| > 1 ==> calls[1] == Submit(Write.RegisterPublicKey(exported.value))
      ensures |calls| > 2 <==> exported.Some? && contract.Some? && tx != Rejected
      ensures |calls| > 2 ==> calls[2] == Wait(Write.RegisterPublicKey(exported.value))
      ensures result == Registered ==>
        calls[3..] == [EncryptionKeys(currentAddress)] &&
        sendButton == if recheck.Fetched? then ButtonFor(recheck.value) else old(sendButton)
      ensures result != Registered ==> |calls| <= 3 && sendButton == old(sendButton)
    {
      calls := [EthGetEncryptionPublicKey(currentAddress)];
      if exported.None? {
        return KeyExportDenied, calls;
      }
      if contract.None? {
        return RegistrationFailed, calls;
      }
      var w := Write.RegisterPublicKey(exported.value);
      calls := calls + [Submit(w)];
      if tx == Rejected {
        return RegistrationFailed, calls;
      }
      calls := calls + [Wait(w)];
      if tx == Reverted {
        return RegistrationFailed, calls;
      }
      var more := CheckUserStatus(recheck);
      calls := calls + more;
      result := Registered;
    }

    /** Sends the note in the form. `validRecipient` is the address check on
        the recipient input, `keyRead` the outcome of the recipient's key
        lookup, `nonce` the random nonce, `boxed` the outcome of the encryption
        (None when it throws) and `tx` the outcome of the transaction. The
        checks run in SendGate's order, a null contract counting as a failed
        lookup; the envelope sent is sealed from the nonce and the encryption
        output; a confirmed send empties the message input. */
    method SendEncryptedNote(validRecipient: bool, keyRead: Fetch<Option<string>>, nonce: seq<byte>,
                             boxed: Option<Boxed>, tx: TxOutcome)
      returns (result: SendResult, calls: seq<Call>)
      requires Valid()
      requires |nonce| == NonceLength
      modifies this`noteContent
      ensures Valid()
      ensures var lookup := if contract.Some? then keyRead else Failed;
        (result.Blocked? <==> SendGate(validRecipient, old(noteContent), lookup).Some?) &&
        (result.Blocked? ==> SendGate(validRecipient, old(noteContent), lookup) == Some(result.reason)) &&
        (result == EncryptionFailed <==> SendGate(validRecipient, old(noteContent), lookup).None? && boxed.None?) &&
        (result == Sent <==> SendGate(validRecipient, old(noteContent), lookup).None? && boxed.Some? && tx == Confirmed)
      ensures calls == [] <==> !validRecipient || old(noteContent) == [] || contract.None?
      ensures calls != [] ==> calls[0] == EncryptionKeys(Some(noteRecipient))
      ensures NoWrites(calls) ==> |calls| <= 1
      ensures NoWrites(calls) <==> result.Blocked? || result == EncryptionFailed
      ensures !NoWrites(calls) ==>
        boxed.Some? &&
        calls[1] == Submit(Write.SendEncryptedNote(noteRecipient, Seal(nonce, boxed.value))) &&
        2 <= |calls| <= 3 && calls[1..] == [calls[1], Wait(calls[1].write)][..|calls| - 1] &&
        (|calls| == 3 <==> tx != Rejected)
      ensures noteContent == if result == Sent then [] else old(noteContent)
    {
      calls := [];
      if !validRecipient {
        return Blocked(InvalidAddress), calls;
      }
      if noteContent == [] {
        return Blocked(EmptyMessage), calls;
      }
      if contract.None? {
        return Blocked(KeyLookupFailed), calls;
      }
      calls := [EncryptionKeys(Some(noteRecipient))];
      if keyRead.Failed? {
        return Blocked(KeyLookupFailed), calls;
      }
      if !KeyPresent(keyRead.value) {
        return Blocked(RecipientNotRegistered), calls;
      }
      if boxed.None? {
        return EncryptionFailed, calls;
      }
      var w := Write.SendEncryptedNote(noteRecipient, Seal(nonce, boxed.value));
      calls := calls + [Submit(w)];
      assert calls[1].Submit?;
      if tx == Rejected {
        return SendFailed, calls;
      }
      calls := calls + [Wait(w)];
      assert calls[1].Submit?;
      if tx == Reverted {
        return SendFailed, calls;
      }
      noteContent := [];
      result := Sent;
    }

    /** What the error path of ReadNote leaves: the content element of the
        note, when there is one, shows the placeholder again. */
    method ResetContent(id: nat)
      requires Valid()
      modifies this`noteText
      ensures Valid()
      ensures noteText == if id in old(noteText) then old(noteText)[id := Placeholder] else old(noteText)
    {
      if id in noteText {
        noteText := noteText[id := Placeholder];
      }
    }

    /** Decrypts and marks as read note `id`: fetches it (`fetched`), needs
        its content element on the page, asks the wallet to decrypt the stored
        content (`decrypted` is None when that throws), sends the mark-as-read
        transaction (`tx`) and only after its confirmation shows the plaintext
        and removes the decrypt button. Any failure puts the placeholder back
        in the content element when there is one. */
    method ReadNote(id: nat, fetched: Fetch<Note>, decrypted: Option<string>, tx: TxOutcome)
      returns (result: ReadResult, calls: seq<Call>)
      requires Valid()
      modifies this`noteText, this`decryptButtons
      ensures Valid()
      ensures result.Displayed? <==>
        contract.Some? && fetched.Fetched? && id in old(noteText) && decrypted.Some? && tx == Confirmed
      ensures result.Displayed? ==>
        result.plaintext == decrypted.value &&
        noteText == old(noteText)[id := decrypted.value] && decryptButtons == old(decryptButtons) - {id}
      ensures result.ReadFailed? ==>
        decryptButtons == old(decryptButtons) &&
        noteText == if id in old(noteText) then old(noteText)[id := Placeholder] else old(noteText)
      ensures |calls| <= 4
      ensures |calls| >= 1 <==> contract.Some?
      ensures |calls| >= 1 ==> calls[0] == GetNote(id)
      ensures |calls| >= 2 <==> contract.Some? && fetched.Fetched? && id in old(noteText)
      ensures |calls| >= 2 ==> calls[1] == EthDecrypt(fetched.value.encryptedContent, currentAddress)
      ensures |calls| >= 3 <==> contract.Some? && fetched.Fetched? && id in old(noteText) && decrypted.Some?
      ensures |calls| >= 3 ==> calls[2] == Submit(ReadEncryptedNote(id))
      ensures |calls| == 4 <==>
        contract.Some? && fetched.Fetched? && id in old(noteText) && decrypted.Some? && tx != Rejected
      ensures |calls| == 4 ==> calls[3] == Wait(ReadEncryptedNote(id))
    {
      calls := [];
      if contract.None? {
        ResetContent(id);
        return ReadFailed, calls;
      }
      calls := [GetNote(id)];
      if fetched.Failed? || id !in noteText {
        ResetContent(id);
        return ReadFailed, calls;
      }
      calls := calls + [EthDecrypt(fetched.value.encryptedContent, currentAddress)];
      if decrypted.None? {
        ResetContent(id);
        return ReadFailed, calls;
      }
      var w := ReadEncryptedNote(id);
      calls := calls + [Submit(w)];
      if tx == Rejected {
        ResetContent(id);
        return ReadFailed, calls;
      }
      calls := calls + [Wait(w)];
      if tx == Reverted {
        ResetContent(id);
        return ReadFailed, calls;
      }
      noteText := noteText[id := decrypted.value];
      decryptButtons := decryptButtons - {id};
      result := Displayed(decrypted.value);
    }

    /** Deletes note `id` once the user confirms (`userConfirmed`); `tx` is
        the outcome of the transaction. A confirmed deletion ends by starting
        LoadNotes (`reload`); nothing else changes here. */
    method DeleteNote(id: nat, userConfirmed: bool, tx: TxOutcome) returns (calls: seq<Call>, reload: bool)
      requires Valid()
      ensures reload <==> userConfirmed && contract.Some? && tx == Confirmed
      ensures calls == [] <==> !userConfirmed || contract.None?
      ensures calls != [] ==> calls[0] == Submit(Write.DeleteNote(id)) && |calls| <= 2
      ensures |calls| == 2 <==> userConfirmed && contract.Some? && tx != Rejected
      ensures |calls| == 2 ==> calls[1] == Wait(Write.DeleteNote(id))
    {
      calls := [];
      reload := false;
      if !userConfirmed || contract.None? {
        return;
      }
      var w := Write.DeleteNote(id);
      calls := [Submit(w)];
      if tx == Rejected {
        return;
      }
      calls := calls + [Wait(w)];
      reload := tx == Confirmed;
    }
  }
}
