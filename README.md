# SecureNotes client — a Dafny model of the page logic

SecureNotes is a browser page for a ledger contract. A user connects a wallet,
buys greeting-card icons from a shop and sends them to another address, and
sends notes to other users. Each note is encrypted for the recipient's
registered public key and decrypted by the recipient's wallet. This project
models the page's own bookkeeping in `frontend/app.js`:

- the session state: the connected account, the signer, the contract handle and the status text;
- the icon cache that the shop scan fills, and the detail view with its selected icon;
- the guards of a purchase;
- the choice of the send button's handler from the user's registered key;
- the checks and the envelope of an encrypted send;
- the notes panel the inbox scan draws;
- the order of the steps when a note is read;
- the deletion of a note;
- the string helpers: the label of an icon type, the short form of an address, and the case-insensitive address comparison.

Modules:

- `Format`: pure string functions.
  - The label of an icon type: `replace(/([A-Z])/g, ' $1')` followed by `trim()`. The trim removes the full ECMAScript white-space and line-terminator set.
  - The short form of an address, built with JavaScript's `substring`. That function clamps its indices and swaps them when they are reversed.
  - The ASCII lower-case comparison of addresses.
- `Codec`: the four-field envelope that the sender builds around the output of the encryption.
- `Ledger`: the records the contract returns. It also defines the outcome of one read (`Fetch`) or one transaction (`TxOutcome`), and the calls the page issues (`Call`).
- `Inbox`: the note scan of the notes panel. `ScanInbox` is a loop method, proved against the specification function `InboxEntries`.
- `Catalog`: the shop scan. `FillCatalog` fills an array in place, and `CachedAt` specifies its result.
- `Messaging`: the registered-key check, the send-button handler and the checks of the send path.
- `Session`: the class `Client`. Its fields are the page's globals and the parts of the page the handlers write. Its methods are the handlers.

Every answer from the wallet or the contract is a parameter of the handler.
The handlers whose order of calls matters return the calls they issued, in
order: `CheckUserStatus`, `RegisterPublicKey`, `LoadData`, `BuyIcon`,
`BuyButtonClicked`, `SendEncryptedNote`, `ReadNote` and `DeleteNote`. The
ordering properties are stated over that list.

Behaviours of the code that the model keeps on purpose:

- If the wallet returns an empty account list and the signer request still succeeds, no address is stored but the session is flagged connected. The flag is set before the address is formatted, and formatting the missing address throws, so no reload starts.
- A shop scan that stops at a failed read keeps the entries cached before that read. The page then shows the error message.
- A ledger that has listings but none available shows an empty grid, not the "no icons" message.
- Reading a note whose content element is not on the page stops before anything is decrypted.
- A note is marked read only after the wallet decrypted it. The plaintext is shown only after the mark-as-read transaction is confirmed.

Behaviours of the code a reader might not expect:

- The code never parses a transport string. It passes the stored content to the wallet unchanged, so there is no malformed-envelope error.
- A confirmed read keeps no local `isRead` flag. It only rewrites the note's content element and removes its decrypt button.
- A failed shop scan does not leave the cache as it was. The cache is emptied first and then keeps what was read before the failure.

## Model

| member | source | states |
|---|---|---|
| Format.IconTypeName | frontend/app.js:249 | the type name of an enum value: its entry in IconTypes, or "Unknown" outside the table |
| Format.DisplayName | frontend/app.js:249-250 | the label of an enum value: its type name with a space before each capital, then trimmed |
| Format.SpaceCapitals | frontend/app.js:250 | inserting a space before each capital adds exactly one character per capital, and the result never starts with a capital |
| Format.SpaceCapitalsInvertible | frontend/app.js:250 | dropping the inserted spaces gives back the original name, so spacing the capitals loses nothing |
| Format.SpaceCapitalsAppend | frontend/app.js:250 | the global replace works piecewise: spacing a concatenation is the concatenation of the spaced parts |
| Format.SpaceCapitalsLower | frontend/app.js:250 | a string without capitals is left unchanged |
| Format.SpaceCapitalsLast | frontend/app.js:250 | the last character survives the replace |
| Format.LeadingSpace | frontend/app.js:250 | the number of leading characters that `trim` removes: all white space, and the character after them is not |
| Format.TrailingSpace | frontend/app.js:250 | the number of trailing characters that `trim` removes: all white space, and the character before them is not |
| Format.Trim | frontend/app.js:250 | the trimmed string is a contiguous slice of the input, everything outside the slice is white space, and the slice neither starts nor ends with white space |
| Format.TrimOneLeading | frontend/app.js:250 | trimming a string with exactly one white-space character in front and none at the end drops just that character |
| Format.SpacedNameTrim | frontend/app.js:250 | for a name that starts with a capital, the trim removes exactly the one space the replace put in front |
| Format.IconTypeNameShape | frontend/app.js:11-16 | every type name, including the "Unknown" fallback, starts with a capital and does not end in white space |
| Format.DisplayNameRecoversTypeName | frontend/app.js:249-250 | the label determines the type name: putting the leading space back and dropping the inserted spaces yields `IconTypes[t] \|\| "Unknown"` |
| Format.SpaceCapitalsWord | frontend/app.js:250 | a capitalised lower-case word gets exactly one space in front |
| Format.TwoWordLabel | frontend/app.js:250 | a name made of two capitalised words is shown as the two words separated by one space |
| Format.OneWordLabel | frontend/app.js:250 | a one-word name is shown unchanged |
| Format.HappyBirthdayLabel | frontend/app.js:11-16 | enum value 0 is labelled "Happy Birthday" |
| Format.CongratulationsLabel | frontend/app.js:11-16 | enum value 1 is labelled "Congratulations" |
| Format.MerryChristmasLabel | frontend/app.js:11-16 | enum value 2 is labelled "Merry Christmas" |
| Format.GraduationLabel | frontend/app.js:11-16 | enum value 3 is labelled "Graduation" |
| Format.UnknownLabel | frontend/app.js:249 | an enum value outside the table is labelled "Unknown" |
| Format.ClampIndex | frontend/app.js:164 | a `substring` index is clamped into 0..length and kept when already inside |
| Format.Substring | frontend/app.js:164 | JavaScript `substring`: both indices clamped into 0..length, swapped when reversed, and the slice between them |
| Format.ShortAddress | frontend/app.js:164 | the short form of an address: `substring(0, 6)`, then "...", then `substring(38)`; the same form is used for note senders at line 495 |
| Format.SubstringProperties | frontend/app.js:164 | `substring` does not depend on the order of its indices, equals the slice for in-range indices, and is never longer than the input |
| Format.ShortAddressShape | frontend/app.js:164 | the short form is at most the first six characters, then "...", then the characters from index 38 on, with the length that follows from that |
| Format.ShortAddressOfFullAddress | frontend/app.js:164 | a 42-character address is shown as its first six characters, "..." and its last four: 13 characters |
| Format.LowerChar | frontend/app.js:482 | `toLowerCase` on one character: an ASCII capital becomes its small letter, anything else is kept |
| Format.ToLower | frontend/app.js:482 | `toLowerCase` on a string, character by character |
| Format.SameAddress | frontend/app.js:482 | the recipient test of the inbox: the two addresses are equal after lower-casing |
| Format.SameAddressPointwise | frontend/app.js:482 | two addresses compare equal exactly when they have the same length and agree character by character up to ASCII case |
| Format.LowerCharMatches | frontend/app.js:482 | two characters compare equal exactly when they are equal or are the two cases of one letter |
| Format.SameAddressEquivalence | frontend/app.js:482 | the comparison is reflexive, symmetric and transitive |
| Codec.Seal | frontend/app.js:432-436 | the envelope carries the fixed scheme tag and a 24-byte nonce, and opening it gives back exactly the nonce, the ephemeral key and the ciphertext it was built from |
| Ledger.ValuesPrefix | frontend/app.js:231-235 | extending the successful prefix by one read appends that read's value |
| Inbox.Addressed | frontend/app.js:482-483 | a note belongs in the inbox: its recipient equals the account up to case and it is not deleted |
| Inbox.Render | frontend/app.js:493-508 | the entry of note i: its index, the short form of its sender, hidden content or the placeholder, and the decrypt button only while unread |
| Inbox.InboxEntries | frontend/app.js:478-511 | the entries of the addressed notes, in index order |
| Inbox.InboxView | frontend/app.js:478-515 | the panel after a scan in which every read succeeded: the entries, or "no notes" when there are none |
| Inbox.UnreadListed | frontend/app.js:502-505 | the indices of the listed notes drawn with a `note-content-i` element and a `decrypt-btn-i` button: those whose entry offers decryption |
| Inbox.ContentElements | frontend/app.js:502 | one content element per listed unread note, keyed by its note index, showing the placeholder |
| Inbox.InboxItems | frontend/app.js:482-510 | every listed entry comes from an undeleted note addressed to the account; a read note hides its content and has no decrypt button, an unread one shows the placeholder and the button, and every entry offers delete; entries are in index order |
| Inbox.InboxComplete | frontend/app.js:478-483 | every undeleted note addressed to the account is listed |
| Inbox.InboxExactly | frontend/app.js:477-483 | index i is listed if and only if note i exists, is addressed to the account up to case, and is not deleted |
| Inbox.UnreadListedExactly | frontend/app.js:500-506 | after a successful scan, a note has a content element and a decrypt button if and only if it is listed and unread |
| Inbox.ScanInbox | frontend/app.js:472-519 | the panel shows the error exactly when some note read throws; otherwise it lists the inbox, or shows "no notes" when nothing was kept |
| Catalog.FirstFailure | frontend/app.js:231-235 | the index at which the scan stops: every read before it succeeded, and the read at it threw |
| Catalog.Entry | frontend/app.js:236-243 | what the scan caches for one listing: its id, type and price when it is available, nothing otherwise |
| Catalog.CachedAt | frontend/app.js:231-243 | the cache entry at an id after the scan: Entry for the listings read before the first failed read, nothing elsewhere |
| Catalog.Card | frontend/app.js:245-256 | the card of listing i: its id, which both buttons open, and its type, which names the image and the label |
| Catalog.Cards | frontend/app.js:234-257 | the cards of the available listings, in index order |
| Catalog.CachedAtExactly | frontend/app.js:231-243 | the cache has an entry at id if and only if listing id exists, it and every listing before it could be read, and it is available; the entry holds that id, type and price |
| Catalog.CachedWhenAllRead | frontend/app.js:231-243 | when every read succeeds, the cache holds exactly the available listings |
| Catalog.EmptyCatalog | frontend/app.js:229-232 | an empty ledger leaves the cache empty |
| Catalog.CardsAreAvailable | frontend/app.js:236-256 | every card belongs to an available listing and shows its type and id, and the cards are in id order |
| Catalog.CardsComplete | frontend/app.js:234-257 | every available listing gets its card |
| Catalog.CardsExactly | frontend/app.js:234-257 | listing i has a card if and only if it exists and is available |
| Catalog.CacheAfterScan | frontend/app.js:231-243 | a scan that stopped at index n, at a failed read or at the end, leaves the slots that CachedAt describes |
| Catalog.FillCatalog | frontend/app.js:231-262 | the scan of the shop fills the array in place so that each slot is CachedAt, and shows the cards when every read succeeded or the error otherwise |
| Messaging.KeyPresent | frontend/app.js:180 | a key counts as registered when it is present and not empty |
| Messaging.SendGate | frontend/app.js:365-387 | the first check of the send path that fails, in source order: the address, the message, the key lookup, the key itself |
| Messaging.ButtonFor | frontend/app.js:179-190 | the send button registers a key exactly when the user's key is missing or empty, and sends exactly when it is present |
| Messaging.SendGatePasses | frontend/app.js:365-387 | a send gets past the checks if and only if the address is valid, the message is non-empty and the recipient's key lookup returned a non-empty key |
| Messaging.SendGateOrder | frontend/app.js:365-387 | the checks run in order: an invalid address is reported whatever the message, an empty message whatever the key, and a missing key only after both pass |
| Session.Client.constructor | frontend/app.js:2-47 | the page starts signed out, with an empty cache and the detail view closed |
| Session.Client.ConnectWallet | frontend/app.js:108-124 | without a provider or with a refused account request nothing changes; otherwise the first account is stored; a signer binds the contract to it and flags the session connected; only with an account is the short address shown and the reload started |
| Session.Client.ForgetAccount | frontend/app.js:127-142 | the account, signer and contract are cleared, the status says "Not Connected" and the send button has no handler |
| Session.Client.ShowPrompts | frontend/app.js:144-146 | the panels show their prompts and no note element remains |
| Session.Client.DisconnectWallet | frontend/app.js:127-156 | afterwards the page is in the signed-out state: account, panels, detail view and note form all reset |
| Session.Client.ConnectButtonClicked | frontend/app.js:98-104 | a connected session is signed out; any other connects with ConnectWallet's outcome (the account, signer, contract, connected flag and status text as ConnectWallet states them) while the panels, send button, detail view and note form stay as they were |
| Session.Client.CheckUserStatus | frontend/app.js:176-194 | the user's own key is looked up through the contract, and the send button's handler becomes ButtonFor of the key; a failed lookup leaves it as it was |
| Session.Client.RegisterPublicKey | frontend/app.js:197-219 | the key is exported by the wallet first, then registered and waited for, then the status is checked again; the registered key is the exported one and the recheck happens only after confirmation |
| Session.Client.LoadIcons | frontend/app.js:222-263 | the cache is a fresh array whose entries are CachedAt of the listings, or none when the count read fails; the grid shows the error exactly when a read fails or there is no contract |
| Session.Client.LoadNotes | frontend/app.js:469-521 | the panel shows the error exactly when a read fails, there is no contract, or there is no account and the ledger has notes; otherwise it lists the inbox; the content elements and decrypt buttons are those of the listed unread notes |
| Session.Client.LoadData | frontend/app.js:168-173 | the shop, the notes panel and the send button are all reloaded: the cache is CachedAt of the listings, the grid shows the error, "no icons" or the cards of the available listings, the notes panel shows the error, "no notes" or the inbox with its content elements, and the send button follows the user's key |
| Session.Client.CachedEntry | frontend/app.js:305-306 | the `loadedIconsData[id]` lookup: the entry cached at id, nothing for an id outside the cache, and with the cache keyed by id an entry found carries that id |
| Session.Client.DetailName | frontend/app.js:311-316 | the text of the detail label: the display name of the selected icon's type |
| Session.Client.OpenDetailIcon | frontend/app.js:304-323 | an id with a cache entry is selected, its label (DisplayName of its type) and its price are shown and the recipient input is cleared; any other id changes nothing |
| Session.Client.CloseDetailView | frontend/app.js:326-330 | the detail view is closed and nothing is selected |
| Session.Client.BuyIcon | frontend/app.js:333-355 | an invalid recipient stops before any call; with a contract and a cache entry the purchase is submitted with the cached price and then waited for; only a confirmed purchase closes the detail view and starts the reload |
| Session.Client.BuyButtonClicked | frontend/app.js:41-44 | nothing happens without a selection; otherwise the selected icon is bought with BuyIcon's outcome: an invalid recipient stops before any call, the purchase is submitted with the cached price and waited for only with a contract and a cache entry, and only a confirmed purchase closes the view and starts the reload |
| Session.Client.SendEncryptedNote | frontend/app.js:361-466 | the outcome follows SendGate, with a missing contract counting as a failed lookup; a send that stops after the key read has issued only that one read; a transaction is submitted only past the checks and the encryption, carrying the sealed envelope; only a confirmed send empties the message input |
| Session.Client.ResetContent | frontend/app.js:560-565 | on a failed read the note's content element, if present, shows the placeholder again |
| Session.Client.ReadNote | frontend/app.js:524-567 | the calls are the note fetch, the wallet decryption, the mark-read submission and its wait, each issued only when every earlier step succeeded; the plaintext is shown and the decrypt button removed only after confirmation, and any failure restores the placeholder |
| Session.Client.DeleteNote | frontend/app.js:570-584 | nothing is called without the user's confirmation or a contract; the deletion is submitted and waited for, and only a confirmed deletion starts the reload of the notes |

## Left out

- Page start-up (`init`, lines 50-95): loading the contract address from a JSON file and finding the wallet provider. Their outcomes are the `hasProvider` and `contractAddress` parameters of the constructor.
- The `accountsChanged` subscription is not a separate member. It only calls `DisconnectWallet`.
- `loadMyCards` (lines 266-301) is not part of this model. It uses the same label and short-address helpers that are modelled in `Format`, but it writes only its own panel.
- The wallet and the network are oracle parameters of each handler: account requests, signers, `eth_getEncryptionPublicKey`, `eth_decrypt` and transactions. So is `ethers.isAddress`. How those collaborators behave inside is not modelled.
- The NaCl encryption is not modelled. That covers key-pair generation, `box`, base64 and UTF-8 encoding. It is one optional `Boxed` result: None stands for an exception, such as a missing library or an undecodable key. The random nonce is a parameter.
- The payload is not serialised. The `JSON.stringify` and `hexlify` steps are left out, so the `SendEncryptedNote` write carries the `Envelope` value instead of its hex string.
- Whether the wallet grants a signer after returning an empty account list is not modelled. `ConnectWallet` takes that answer as the independent `signerAccount` parameter, so the model allows both outcomes.
- Format.ToLower: lower-cases ASCII letters only. Addresses are hex strings, and full Unicode case mapping is not modelled.
- `ethers.formatEther` is not modelled. The detail view keeps the price in wei.
- Timestamps and their date formatting on each note are left out.
- Alerts, console output, button texts such as "Registering..." and CSS classes are left out.
- The transient texts "Loading …", "Decrypting (Check MetaMask)..." and "Marking as read..." are left out. The final text of each element is modelled.
- The handlers run one at a time and each runs to its end. The reload that `connectWallet`, `buyIcon` and `deleteNote` start without waiting for it is a returned `reload` flag. The reload itself is `LoadData` or `LoadNotes`. Interleavings with other handlers are not modelled.
- The model assumes the HTML elements the handlers look up (`sendNoteBtn`, the form inputs) are present. The only exception is the note content elements, which are tracked in `noteText`.
- The first status text "Not Connected", the panel prompts and the send button without a handler come from the page's HTML. The constructor assumes that HTML matches the signed-out state.
- The three reloads in LoadData write disjoint parts of the page, so their order does not change the final state. The reads they make (the counts, `getIcon`, `getNote`) are not recorded in the call list; only the key read is.
- `ConnectWallet`, `LoadIcons` and `LoadNotes` record no calls. The account and signer requests of `ConnectWallet` and the count and record reads of the two scans are visible only through their outcome parameters, not as a list of calls.
- The contract's own state changes (listings, balances, note flags) are not modelled. They are the contract's concern, and the page reads them back through the oracles.
