# KingSpeech landing page: a verified model of the interactive layer

This project models, in Dafny, the browser-side modules of the KingSpeech
landing page (`js/modules/`). Each one is a small state machine or validator:

- **Forms** (`forms.js`): the five validation rules, the rule list built
  from a field's attributes and its `data-validate` string, first-failure
  evaluation, the field error/valid display, whole-form validation, the
  submit-button rule, the filled-field progress counter, the submit
  handler with its loading state, split at its `await` so that other events
  can run while a submission is in flight, and the status message.
- **Lead submission** (`gas-integration.js`): the payload with honeypot,
  page, referrer and UTM keys, the null filter in front of the form-urlencoded
  body, the retry recursion of `sendRequest`, the result mapping in
  `submitLead`, and `checkHealth`.
- **Carousel** (`carousel.js`): the slide index guarded by the transition
  flag, next and previous with wrap-around, swipes, keyboard, the autoplay
  interval, and the slide and indicator classes, kept in arrays.
- **Review modal** (`modal.js`): the wrapped card index, open and close,
  navigation, and the Escape handler.
- **Navigation** (`navigation.js`): the mobile menu state machine, the active
  link for the visible section, anchor clicks and the scroll offset.
- **Overlays**: the modal and the menu share the body scroll lock, and both
  listen on `document`, so one click or one Escape can reach both.
- **Animations** (`animations.js`): the task queue and its single drain loop,
  executing a task, the class choice, the list of animated elements, and
  `addAnimation`, `removeAnimation`, `refresh` and `destroy`.
- **Themes** (`theme.js`, `theme-preinit.js`, `theme-simple.js`): three
  versions of the stored > html class > system priority, the toggle, the html
  classes and the meta colour, persistence, and the system-change listener.
- **FAQ** (`faq.js`): the accordion that keeps at most one item open.

JavaScript semantics that matter are written out in module `Js`:

- Numbers carry NaN (`Js.Number`).
- `%` truncates toward zero.
- `trim` uses ECMAScript whitespace.
- `parseInt` and `split` are modelled.
- Objects keep their keys in insertion order.

Module `Dom` holds the shared page objects: the body scroll lock, the
`<html>` element and `localStorage`.

Browser events, timer expiries and network replies are inputs:

- A timer firing is a method call: the 300 ms carousel cool-down, the banner
  expiry, a delayed animation task.
- An observer callback is a method call.
- A `fetch` is one outcome per attempt.

The system's own entry points are the classes (`Forms.Form`,
`Carousel.CarouselManager`, `Modal.ModalManager`,
`Navigation.NavigationManager`, `Animations.AnimationManager`,
`Theme.ThemeManager`, `ThemeSimple.SimpleThemeManager`, `Faq.FAQManager`,
`GasIntegration.GASIntegration`). Each method is proved against the
functions beside it, and the lemmas state the properties of those functions.
`theme-preinit.js`'s `getSystemTheme` is the same decision as `theme.js`'s
and is modelled once, as `Theme.SystemTheme`.

## Model

| member | source | states |
|---|---|---|
| Js.TrimEmptyIff | kingspeechlandv.3/kingspeech-landing/js/modules/forms.js:13 | `value.trim()` is empty exactly when every character is JavaScript whitespace |
| Js.Split | kingspeechlandv.3/kingspeech-landing/js/modules/forms.js:226 | `split` on a one-character separator: at least one piece, none containing the separator |
| Js.ParseInt | kingspeechlandv.3/kingspeech-landing/js/modules/forms.js:216 | `parseInt(null)` is NaN |
| Js.ParseIntOfString | kingspeechlandv.3/kingspeech-landing/js/modules/animations.js:304-306 | `parseInt(String(n))` is `n` for every safe integer (at most 2^53 - 1 in size), so a number written as an attribute reads back unchanged |
| Js.TrimStart | kingspeechlandv.3/kingspeech-landing/js/modules/forms.js:146 | drops exactly the leading whitespace |
| Js.TrimEnd | kingspeechlandv.3/kingspeech-landing/js/modules/forms.js:146 | drops exactly the trailing whitespace |
| Js.JoinSplit | kingspeechlandv.3/kingspeech-landing/js/modules/forms.js:226 | joining the pieces of a split gives back the string |
| Js.SplitJoin | kingspeechlandv.3/kingspeech-landing/js/modules/forms.js:226 | splitting pieces that lack the separator after joining them gives back the pieces |
| Js.SetEntryFacts | kingspeechlandv.3/kingspeech-landing/js/modules/forms.js:229 | other keys keep their values and positions, and unique keys stay unique |
| Js.AssignFacts | kingspeechlandv.3/kingspeech-landing/js/modules/gas-integration.js:83-91 | keys only in the object keep their values and positions, keys of the spread take the spread's values, unique keys stay unique |
| Js.LookupNoneIff | kingspeechlandv.3/kingspeech-landing/js/modules/forms.js:229 | a lookup misses exactly when the key is absent |
| Js.Rem | kingspeechlandv.3/kingspeech-landing/js/modules/carousel.js:298 | `%`: NaN exactly for a zero divisor; a result smaller in size than the divisor, negative only for a negative dividend, and the Euclidean remainder otherwise |
| Js.SetEntry | kingspeechlandv.3/kingspeech-landing/js/modules/forms.js:229 | assigning a property keeps insertion order: an existing key keeps its place with the new value, a new key goes last |
| Js.Assign | kingspeechlandv.3/kingspeech-landing/js/modules/gas-integration.js:83-91 | spreading after the object: the keys are those of both |
| Dom.Storage.GetItem | kingspeechlandv.3/kingspeech-landing/js/modules/theme.js:28 | `localStorage.getItem` gives the stored value exactly when the key is present, else null |
| Dom.Storage.SetItem | kingspeechlandv.3/kingspeech-landing/js/modules/theme.js:193-195 | `setItem` stores the value under the key and leaves every other key unchanged |
| Dom.Storage.RemoveItem | kingspeechlandv.3/kingspeech-landing/js/modules/theme.js:248 | `removeItem` drops the key and only that key |
| Forms.BlankIff | kingspeechlandv.3/kingspeech-landing/js/modules/forms.js:146 | a field is blank exactly when its trimmed value is empty |
| Forms.RequiredIff | kingspeechlandv.3/kingspeech-landing/js/modules/forms.js:13 | `required` holds iff the trimmed value is non-empty, iff some character is not whitespace |
| Forms.Required | kingspeechlandv.3/kingspeech-landing/js/modules/forms.js:13 | the `required` rule: the trimmed value has a non-zero length (characterised by `RequiredIff`) |
| Forms.EmailMatchesPattern | kingspeechlandv.3/kingspeech-landing/js/modules/forms.js:14 | the email rule (no whitespace, one '@' after a non-empty local part, a '.' strictly inside the domain) accepts exactly what the regular expression matches, in both directions |
| Forms.EmailHasPattern | kingspeechlandv.3/kingspeech-landing/js/modules/forms.js:14 | every address the email rule accepts splits as run '@' run '.' run |
| Forms.PatternIsEmail | kingspeechlandv.3/kingspeech-landing/js/modules/forms.js:14 | every such split is accepted by the email rule |
| Forms.PhoneMatchesPattern | kingspeechlandv.3/kingspeech-landing/js/modules/forms.js:15 | the phone rule (optional '+', then at least ten of digits, whitespace, '-', '(' and ')') accepts exactly what the regular expression matches |
| Forms.Email | kingspeechlandv.3/kingspeech-landing/js/modules/forms.js:14 | the `email` rule, written as a characterisation that `EmailMatchesPattern` proves equal to the regular expression |
| Forms.Phone | kingspeechlandv.3/kingspeech-landing/js/modules/forms.js:15 | the `phone` rule: a leading '+' dropped, then at least ten allowed characters (`PhoneMatchesPattern`) |
| Forms.MinLength | kingspeechlandv.3/kingspeech-landing/js/modules/forms.js:16 | `minLength`: the raw, untrimmed length in UTF-16 units is at least the bound; a NaN bound fails |
| Forms.MaxLength | kingspeechlandv.3/kingspeech-landing/js/modules/forms.js:17 | `maxLength`: the raw, untrimmed length in UTF-16 units is at most the bound; a NaN bound fails |
| Forms.LengthRulesUntrimmed | kingspeechlandv.3/kingspeech-landing/js/modules/forms.js:13-17 | the length rules count whitespace: n spaces are blank and fail `required`, yet meet `minLength` n and `maxLength` n |
| Forms.SetIf | kingspeechlandv.3/kingspeech-landing/js/modules/forms.js:200-222 | each conditional assignment keeps the rule keys unique |
| Forms.BaseRules | kingspeechlandv.3/kingspeech-landing/js/modules/forms.js:197-222 | the attribute rules have unique keys |
| Forms.BaseRulesOrder | kingspeechlandv.3/kingspeech-landing/js/modules/forms.js:200-222 | the attribute rules come as required, email, phone, minLength, maxLength, each present exactly when its attribute asks for it |
| Forms.SetIfNew | kingspeechlandv.3/kingspeech-landing/js/modules/forms.js:200-222 | assigning a new key appends it |
| Forms.CustomRule | kingspeechlandv.3/kingspeech-landing/js/modules/forms.js:228-229 | a `data-validate` item gives a name without ':' and either `true` or a non-empty value; an item without ':' gives its trimmed self mapped to `true` |
| Forms.CustomRules | kingspeechlandv.3/kingspeech-landing/js/modules/forms.js:224-231 | the `data-validate` items split on ',', one rule each; none without the attribute |
| Forms.FieldRules | kingspeechlandv.3/kingspeech-landing/js/modules/forms.js:196-234 | the attribute rules with the `data-validate` items assigned over them (shape proved by `FieldRulesShape`) |
| Forms.SplitNoSep | kingspeechlandv.3/kingspeech-landing/js/modules/forms.js:228 | splitting a string that lacks the separator gives the string itself |
| Forms.CustomRulesOf | kingspeechlandv.3/kingspeech-landing/js/modules/forms.js:226-230 | one rule per `data-validate` item, in order |
| Forms.FieldRulesShape | kingspeechlandv.3/kingspeech-landing/js/modules/forms.js:196-234 | unique keys; the attribute rules come first and in order, and keep their values unless a `data-validate` item names them |
| Forms.GetFieldRules | kingspeechlandv.3/kingspeech-landing/js/modules/forms.js:196-234 | the assignments and the `data-validate` loop build exactly `FieldRules` |
| Forms.RuleFailure | kingspeechlandv.3/kingspeech-landing/js/modules/forms.js:163-184 | only the five known rules can fail and their messages are non-empty; an empty value can fail only required, email or phone, because the length rules are skipped for it |
| Forms.FirstFailure | kingspeechlandv.3/kingspeech-landing/js/modules/forms.js:163-185 | a failure message is never empty |
| Forms.FirstFailureIsFirst | kingspeechlandv.3/kingspeech-landing/js/modules/forms.js:163-185 | no message iff every rule passes; otherwise the message is that of a failing rule before which every rule passed |
| Forms.UnknownRuleHarmless | kingspeechlandv.3/kingspeech-landing/js/modules/forms.js:163-185 | inserting a rule with an unknown name anywhere changes no outcome |
| Forms.RequiredChecksFirst | kingspeechlandv.3/kingspeech-landing/js/modules/forms.js:164-167 | a blank required field fails with the required message, whatever its other rules |
| Forms.FirstValueTruthy | kingspeechlandv.3/kingspeech-landing/js/modules/forms.js:200-229 | the first rule of a required field is `required` with a truthy value, whatever `data-validate` assigns to it |
| Forms.ValidRequiredNotBlank | kingspeechlandv.3/kingspeech-landing/js/modules/forms.js:164-167 | a required field that validates is not blank |
| Forms.Verdict | kingspeechlandv.3/kingspeech-landing/js/modules/forms.js:239-259 | the error class and error text appear exactly when the field is invalid; the valid class exactly when it is valid and not blank |
| Forms.ValidFormIsFilled | kingspeechlandv.3/kingspeech-landing/js/modules/forms.js:125-151 | a form whose required fields all validate has its submit button enabled |
| Forms.CountFilled | kingspeechlandv.3/kingspeech-landing/js/modules/forms.js:529-534 | the filled count never exceeds the number of `input[required]` fields |
| Forms.CountRequiredInputs | kingspeechlandv.3/kingspeech-landing/js/modules/forms.js:524 | the number of `input[required]` fields, the total the progress counts against |
| Forms.ProgressText | kingspeechlandv.3/kingspeech-landing/js/modules/forms.js:536-545 | the ready text when all are filled, the count text when some are, the empty-form text when none are |
| Forms.CountFilledAll | kingspeechlandv.3/kingspeech-landing/js/modules/forms.js:529-540 | the count reaches the total exactly when every counted field is non-blank |
| Forms.ReadyIffFilled | kingspeechlandv.3/kingspeech-landing/js/modules/forms.js:539-540 | with only inputs among the required fields, the progress says ready exactly when the submit button is enabled |
| Forms.SubmitForm | kingspeechlandv.3/kingspeech-landing/js/modules/forms.js:321-345 | submission succeeds exactly when the lead client reports success, and then carries the fixed success text; a rejection carries the client's non-empty error text |
| Forms.WithoutBanner | kingspeechlandv.3/kingspeech-landing/js/modules/forms.js:397-401 | the expiry timer removes exactly the message it belongs to |
| Forms.Form.constructor | kingspeechlandv.3/kingspeech-landing/js/modules/forms.js:26-30 | default values, no validation state, the submit button disabled exactly when a required field is blank, and the initial progress |
| Forms.Form.ValidateField | kingspeechlandv.3/kingspeech-landing/js/modules/forms.js:156-191 | returns whether the field passes its rules; only that field's view changes, to its verdict |
| Forms.Form.UpdateFieldState | kingspeechlandv.3/kingspeech-landing/js/modules/forms.js:239-259 | the old error and both classes go; then the error class and text, or the valid class for a non-blank value |
| Forms.Form.ClearFieldError | kingspeechlandv.3/kingspeech-landing/js/modules/forms.js:276-286 | the error element and error class go; the valid class stays |
| Forms.Form.ValidateForm | kingspeechlandv.3/kingspeech-landing/js/modules/forms.js:125-136 | every required field is validated, with no short-circuit, and the result is whether all passed |
| Forms.Form.UpdateCTAState | kingspeechlandv.3/kingspeech-landing/js/modules/forms.js:141-151 | with a submit button, it is disabled exactly when some required field is blank |
| Forms.Form.UpdateProgress | kingspeechlandv.3/kingspeech-landing/js/modules/forms.js:528-549 | the count of filled `input[required]` fields and the matching text |
| Forms.Form.OnInput | kingspeechlandv.3/kingspeech-landing/js/modules/forms.js:52-55 | the new value, the error cleared, the button rule re-evaluated, and the progress for counted fields |
| Forms.Form.OnBlur | kingspeechlandv.3/kingspeech-landing/js/modules/forms.js:51 | the field's verdict, and the progress for counted fields |
| Forms.Form.SetFormLoading | kingspeechlandv.3/kingspeech-landing/js/modules/forms.js:407-420 | with a submit button, `disabled` and `aria-busy` follow the flag; without one nothing changes |
| Forms.Form.ShowFormMessageAsWritten | kingspeechlandv.3/kingspeech-landing/js/modules/forms.js:380-402 | as written: every call adds one more message and none is removed |
| Forms.Form.ShowFormMessage | kingspeechlandv.3/kingspeech-landing/js/modules/forms.js:380-402 | corrected: the new message replaces the previous one |
| Forms.Form.BannerTimeout | kingspeechlandv.3/kingspeech-landing/js/modules/forms.js:397-401 | after 5 s the message is removed if it is still shown |
| Forms.Form.HandleFormSubmit | kingspeechlandv.3/kingspeech-landing/js/modules/forms.js:71-94 | up to the `await`: the button rule is re-evaluated and every required field validated; an invalid form returns false and sends nothing; a valid one sets loading, sends the data and stays in flight |
| Forms.Form.HandleFormSuccess | kingspeechlandv.3/kingspeech-landing/js/modules/forms.js:350-365 | as written: one more success message, then `ResetForm` |
| Forms.Form.SubmitCompleted | kingspeechlandv.3/kingspeech-landing/js/modules/forms.js:94-107 | the awaited outcome of one in-flight submission: success adds the success message (earlier messages stay, as written) and resets the fields; failure adds the error message and keeps them; loading is cleared on both paths |
| Forms.Form.SubmitCompletedCorrected | kingspeechlandv.3/kingspeech-landing/js/modules/forms.js:94-107 | corrected: as `SubmitCompleted`, but the outcome's message is the only one shown |
| Forms.Form.HandleFormError | kingspeechlandv.3/kingspeech-landing/js/modules/forms.js:370-375 | as written: one more error message; the fields keep their values and views |
| Forms.Form.ResetForm | kingspeechlandv.3/kingspeech-landing/js/modules/forms.js:352-359 | the default values, and both validation classes removed from every field; error texts, the button and the progress stay |
| Forms.AllThrewRejected | kingspeechlandv.3/kingspeech-landing/js/modules/forms.js:333-337 | when every attempt fails the form reports the network-error text |
| Forms.InputDuringSubmission | kingspeechlandv.3/kingspeech-landing/js/modules/forms.js:52-55 | typing during a submission re-runs `updateCTAState`, which enables the button while it is still busy, and a second submission can start before the first completes |
| Forms.MessagesAccumulateAsWritten | kingspeechlandv.3/kingspeech-landing/js/modules/forms.js:382-394 | two failed submissions through the handlers as written leave two messages on screen |
| Forms.MessagesReplaced | kingspeechlandv.3/kingspeech-landing/js/modules/forms.js:380-402 | with the corrected handler one message remains |
| GasIntegration.Delivered | kingspeechlandv.3/kingspeech-landing/js/modules/gas-integration.js:127-143 | an attempt yields a reply exactly for a 2xx response with a JSON body |
| GasIntegration.SendRequest | kingspeechlandv.3/kingspeech-landing/js/modules/gas-integration.js:122-157 | the waits before retries are 1000·(k+1) ms; every attempt before the reply failed; a failure means the last attempt failed too |
| GasIntegration.RetrySchedule | kingspeechlandv.3/kingspeech-landing/js/modules/gas-integration.js:17-18 | at most 3 attempts, waits [1000, 2000] (linear), and failure exactly when all attempts fail |
| GasIntegration.GetUrlParameter | kingspeechlandv.3/kingspeech-landing/js/modules/gas-integration.js:177-180 | the value of the first pair with that name, as `URLSearchParams.get` gives it; '' when the name is missing |
| GasIntegration.BuildPayload | kingspeechlandv.3/kingspeech-landing/js/modules/gas-integration.js:83-91 | the form's properties keep their values and order; honeypot `website` is '' and page, ref and the utm keys are added |
| GasIntegration.AddedShape | kingspeechlandv.3/kingspeech-landing/js/modules/gas-integration.js:85-90 | the six added keys are distinct and carry the listed values |
| GasIntegration.EncodeFormData | kingspeechlandv.3/kingspeech-landing/js/modules/gas-integration.js:162-172 | the loop appends exactly the non-null entries, in order |
| GasIntegration.Present | kingspeechlandv.3/kingspeech-landing/js/modules/gas-integration.js:165-169 | the name/value pairs of the entries whose value is neither null nor undefined, in entry order |
| GasIntegration.PresentAppend | kingspeechlandv.3/kingspeech-landing/js/modules/gas-integration.js:165-169 | encoding works entry by entry over concatenation |
| GasIntegration.PresentMembers | kingspeechlandv.3/kingspeech-landing/js/modules/gas-integration.js:165-169 | a pair is emitted exactly when the data holds that key with that non-null value |
| GasIntegration.SubmitLead | kingspeechlandv.3/kingspeech-landing/js/modules/gas-integration.js:78-117 | never throws; for the first delivered reply, a truthy `ok` gives `Success(data, message)` and a falsy one `Failure` with its message or the unknown-error text; all attempts failing gives the network-error text |
| GasIntegration.GASIntegration.constructor | kingspeechlandv.3/kingspeech-landing/js/modules/gas-integration.js:38 | starts unhealthy |
| GasIntegration.GASIntegration.CheckHealth | kingspeechlandv.3/kingspeech-landing/js/modules/gas-integration.js:53-73 | healthy exactly when the probe is a 2xx JSON reply whose `ok` is `true` |
| Carousel.NextIndex | kingspeechlandv.3/kingspeech-landing/js/modules/carousel.js:297-300 | NaN with no slides; from a slide in range, a slide in range |
| Carousel.PrevIndex | kingspeechlandv.3/kingspeech-landing/js/modules/carousel.js:305-308 | from a slide in range, a slide in range |
| Carousel.NextPrevInverse | kingspeechlandv.3/kingspeech-landing/js/modules/carousel.js:297-308 | next then previous, and previous then next, return to the same slide |
| Carousel.NextStepsMod | kingspeechlandv.3/kingspeech-landing/js/modules/carousel.js:297-300 | k steps forward from slide c reach (c + k) mod n |
| Carousel.FullCycle | kingspeechlandv.3/kingspeech-landing/js/modules/carousel.js:297-300 | n steps forward come back to the start |
| Carousel.ModSucc | kingspeechlandv.3/kingspeech-landing/js/modules/carousel.js:298 | stepping on the reduced index equals stepping on the unreduced one |
| Carousel.SwipeOf | kingspeechlandv.3/kingspeech-landing/js/modules/carousel.js:123-135 | no swipe iff the distance is at most 50 either way; forward iff the finger moved left by more than 50 |
| Carousel.CarouselManager.constructor | kingspeechlandv.3/kingspeech-landing/js/modules/carousel.js:6-38 | with the carousel, listeners on, slide 0 requested, autoplay exactly with two or more slides; without it, nothing |
| Carousel.CarouselManager.GoToSlide | kingspeechlandv.3/kingspeech-landing/js/modules/carousel.js:170-197 | accepted iff no transition and the index is not below 0 nor at least the total (NaN passes); then the index is current, shown, and the cool-down starts |
| Carousel.CarouselManager.CooldownElapsed | kingspeechlandv.3/kingspeech-landing/js/modules/carousel.js:194-196 | the transition flag clears |
| Carousel.CarouselManager.UpdateTrackPosition | kingspeechlandv.3/kingspeech-landing/js/modules/carousel.js:202-212 | exactly the current slide is active and none has `prev` |
| Carousel.CarouselManager.UpdateIndicators | kingspeechlandv.3/kingspeech-landing/js/modules/carousel.js:217-227 | exactly the current indicator is active and has `aria-current` |
| Carousel.CarouselManager.HandleSlideTransition | kingspeechlandv.3/kingspeech-landing/js/modules/carousel.js:247-260 | `active` off the previous slide and on the new one, where they exist |
| Carousel.CarouselManager.UpdateCarousel | kingspeechlandv.3/kingspeech-landing/js/modules/carousel.js:313-317 | the classes show the current slide |
| Carousel.CarouselManager.NextSlide | kingspeechlandv.3/kingspeech-landing/js/modules/carousel.js:297-300 | accepted iff no transition; the slide becomes `NextIndex` and the transition starts |
| Carousel.CarouselManager.PreviousSlide | kingspeechlandv.3/kingspeech-landing/js/modules/carousel.js:305-308 | accepted only without a transition (iff, on a non-empty carousel); the slide becomes `PrevIndex` and the transition starts |
| Carousel.CarouselManager.TouchStart | kingspeechlandv.3/kingspeech-landing/js/modules/carousel.js:110-112 | records the start position |
| Carousel.CarouselManager.TouchEnd | kingspeechlandv.3/kingspeech-landing/js/modules/carousel.js:114-117 | records the end position and moves as `SwipeOf` says |
| Carousel.CarouselManager.OnKeyDown | kingspeechlandv.3/kingspeech-landing/js/modules/carousel.js:76-86 | in the viewport and without a transition, ArrowLeft moves to `PrevIndex` and ArrowRight to `NextIndex`; any other key, outside the viewport or during a transition nothing moves |
| Carousel.CarouselManager.SetupAutoplay | kingspeechlandv.3/kingspeech-landing/js/modules/carousel.js:140-146 | one interval with the current delay exactly when there are two or more slides |
| Carousel.CarouselManager.PauseAutoplay | kingspeechlandv.3/kingspeech-landing/js/modules/carousel.js:151-156 | afterwards no interval runs |
| Carousel.CarouselManager.ResumeAutoplay | kingspeechlandv.3/kingspeech-landing/js/modules/carousel.js:161-165 | starts an interval only with two or more slides and none running; never more than one |
| Carousel.CarouselManager.SetAutoplayDelay | kingspeechlandv.3/kingspeech-landing/js/modules/carousel.js:356-362 | stores the delay; a running interval is restarted with it, a stopped one stays stopped |
| Carousel.CarouselManager.AutoplayTick | kingspeechlandv.3/kingspeech-landing/js/modules/carousel.js:143-145 | a tick is `nextSlide` |
| Carousel.CarouselManager.OnVisibilityChange | kingspeechlandv.3/kingspeech-landing/js/modules/carousel.js:95-101 | hidden pauses, visible resumes |
| Carousel.CarouselManager.OnMouseEnter | kingspeechlandv.3/kingspeech-landing/js/modules/carousel.js:90 | pauses autoplay |
| Carousel.CarouselManager.OnMouseLeave | kingspeechlandv.3/kingspeech-landing/js/modules/carousel.js:91 | resumes autoplay |
| Carousel.CarouselManager.Dispatch | kingspeechlandv.3/kingspeech-landing/js/modules/carousel.js:57-101 | events reach the handlers only while the listeners are attached |
| Carousel.CarouselManager.Destroy | kingspeechlandv.3/kingspeech-landing/js/modules/carousel.js:367-392 | autoplay is paused; the listeners stay attached |
| Carousel.EmptyCarouselGoesNaN | kingspeechlandv.3/kingspeech-landing/js/modules/carousel.js:171 | with no slides `nextSlide` makes the current slide NaN |
| Carousel.AutoplayRestartsAfterDestroy | kingspeechlandv.3/kingspeech-landing/js/modules/carousel.js:367-392 | after `destroy`, the page becoming visible restarts autoplay |
| Modal.FullText | kingspeechlandv.3/kingspeech-landing/js/modules/modal.js:108 | the non-empty `data-full`, else the shown text, else '' |
| Modal.Wrap | kingspeechlandv.3/kingspeech-landing/js/modules/modal.js:102 | with no cards the index is NaN |
| Modal.WrapInRange | kingspeechlandv.3/kingspeech-landing/js/modules/modal.js:102 | from -n up, the index wraps into [0, n) |
| Modal.WrapFixesPositions | kingspeechlandv.3/kingspeech-landing/js/modules/modal.js:102 | a position in range wraps to itself |
| Modal.WrapNegative | kingspeechlandv.3/kingspeech-landing/js/modules/modal.js:102 | below -n the truncating remainder can be negative |
| Modal.Navigated | kingspeechlandv.3/kingspeech-landing/js/modules/modal.js:145-148 | from a card in range, a step of at most n either way lands in range |
| Modal.NavigatedStep | kingspeechlandv.3/kingspeech-landing/js/modules/modal.js:145-148 | a step of d from c lands on (c + d) mod n |
| Modal.NavigateInverse | kingspeechlandv.3/kingspeech-landing/js/modules/modal.js:145-148 | next then previous, and previous then next, return to the same card |
| Modal.ModalManager.constructor | kingspeechlandv.3/kingspeech-landing/js/modules/modal.js:6-23 | closed, index -1 |
| Modal.ModalManager.OpenAt | kingspeechlandv.3/kingspeech-landing/js/modules/modal.js:99-127 | the index wraps; a missing card throws after the index is written; otherwise the card's name and full text are shown, the modal opens and the body is locked |
| Modal.ModalManager.Close | kingspeechlandv.3/kingspeech-landing/js/modules/modal.js:132-140 | closed, `aria-hidden` true, body unlocked, index kept |
| Modal.ModalManager.Navigate | kingspeechlandv.3/kingspeech-landing/js/modules/modal.js:145-148 | reopens at the navigated index |
| Modal.ModalManager.ActivateCard | kingspeechlandv.3/kingspeech-landing/js/modules/modal.js:80-92 | a click or Enter/Space on card i opens card i |
| Modal.ModalManager.OnKeyDown | kingspeechlandv.3/kingspeech-landing/js/modules/modal.js:68-72 | Escape closes, and only an open modal |
| Modal.NextThenPrevious | kingspeechlandv.3/kingspeech-landing/js/modules/modal.js:64-65 | the next and previous buttons return to the same open card |
| Navigation.TargetId | kingspeechlandv.3/kingspeech-landing/js/modules/navigation.js:179 | the href without its first character; null stays null |
| Navigation.TargetIdOfHash | kingspeechlandv.3/kingspeech-landing/js/modules/navigation.js:179 | `#id` targets `id` |
| Navigation.HeaderHeight | kingspeechlandv.3/kingspeech-landing/js/modules/navigation.js:216-219 | the header's height, or 0 without a header |
| Navigation.ScrollTop | kingspeechlandv.3/kingspeech-landing/js/modules/navigation.js:201-202 | the target top plus the header height plus 20 is the section's top |
| Navigation.NavigationManager.constructor | kingspeechlandv.3/kingspeech-landing/js/modules/navigation.js:6-26 | menu closed, no section, no link changed |
| Navigation.NavigationManager.OpenMobileMenu | kingspeechlandv.3/kingspeech-landing/js/modules/navigation.js:132-151 | with menu and toggle: open, expanded, close label, body locked; else nothing |
| Navigation.NavigationManager.CloseMobileMenu | kingspeechlandv.3/kingspeech-landing/js/modules/navigation.js:156-172 | with menu and toggle: closed, collapsed, open label, body unlocked; else nothing |
| Navigation.NavigationManager.ToggleMobileMenu | kingspeechlandv.3/kingspeech-landing/js/modules/navigation.js:121-127 | flips the menu state |
| Navigation.NavigationManager.OpenMenu | kingspeechlandv.3/kingspeech-landing/js/modules/navigation.js:274-278 | opens only a closed menu |
| Navigation.NavigationManager.CloseMenu | kingspeechlandv.3/kingspeech-landing/js/modules/navigation.js:283-287 | closes only an open menu |
| Navigation.NavigationManager.UpdateActiveNavigation | kingspeechlandv.3/kingspeech-landing/js/modules/navigation.js:224-237 | with a section selected, exactly the links to it are active with `aria-current` |
| Navigation.NavigationManager.OnSectionIntersecting | kingspeechlandv.3/kingspeech-landing/js/modules/navigation.js:104-110 | the section becomes current and the links follow |
| Navigation.NavigationManager.OnScrollSettled | kingspeechlandv.3/kingspeech-landing/js/modules/navigation.js:79-81 | the links are redrawn for the current section |
| Navigation.NavigationManager.SmoothScrollTo | kingspeechlandv.3/kingspeech-landing/js/modules/navigation.js:197-211 | with a target, one scroll to its offset and the hash written; else nothing |
| Navigation.NavigationManager.HandleNavClick | kingspeechlandv.3/kingspeech-landing/js/modules/navigation.js:177-192 | the default is prevented exactly for a non-empty target; then the menu closes and the page scrolls |
| Navigation.NavigationManager.OnToggleKeyDown | kingspeechlandv.3/kingspeech-landing/js/modules/navigation.js:45-50 | Enter or Space toggles the menu, locking the body when it opens and unlocking it when it closes |
| Navigation.NavigationManager.OnKeyDown | kingspeechlandv.3/kingspeech-landing/js/modules/navigation.js:63-67 | Escape closes an open menu |
| Navigation.NavigationManager.OnResize | kingspeechlandv.3/kingspeech-landing/js/modules/navigation.js:85-89 | wider than 768 px closes the menu |
| Navigation.NavigationManager.OnDocumentClick | kingspeechlandv.3/kingspeech-landing/js/modules/navigation.js:54-60 | a click outside menu and toggle closes an open menu and unlocks the body |
| Navigation.NavigationManager.Destroy | kingspeechlandv.3/kingspeech-landing/js/modules/navigation.js:292-312 | the menu ends closed |
| Navigation.ToggleTwice | kingspeechlandv.3/kingspeech-landing/js/modules/navigation.js:121-127 | toggling twice restores the menu state |
| Overlays.Click | kingspeechlandv.3/kingspeech-landing/js/modules/navigation.js:54-60 | the target's own listener (modal close, backdrop, arrows, a card, the toggle), then navigation's document listener: any click outside the menu and toggle closes the menu; closing the modal unlocks the body; a card opens the modal, locked only if the menu was closed |
| Overlays.KeyDown | kingspeechlandv.3/kingspeech-landing/js/modules/modal.js:68-72 | the card and toggle listeners on Enter or Space, then both document listeners, navigation's first: Escape closes both overlays and unlocks the body; other keys change neither |
| Overlays.BothOpen | kingspeechlandv.3/kingspeech-landing/js/modules/modal.js:86-91 | the menu opened from its toggle and a card from the keyboard leave both open with the body locked |
| Overlays.ClosingModalClosesMenu | kingspeechlandv.3/kingspeech-landing/js/modules/navigation.js:54-67 | closing the modal by Escape, the close button or the backdrop also closes an open menu, and the body is unlocked |
| Overlays.MenuCloseUnlocksOpenModal | kingspeechlandv.3/kingspeech-landing/js/modules/navigation.js:165 | closing the menu from its toggle unlocks the body while the modal stays open |
| Overlays.CardClickWithMenuOpen | kingspeechlandv.3/kingspeech-landing/js/modules/navigation.js:54-60 | a card click with the menu open shows the modal, closes the menu and leaves the body unlocked |
| Overlays.SingleOverlayLocks | kingspeechlandv.3/kingspeech-landing/js/modules/modal.js:124 | either overlay opened alone locks the body, and a key other than Escape keeps it locked |
| Animations.OrDefault | kingspeechlandv.3/kingspeech-landing/js/modules/animations.js:127-128 | `parseInt(x) \|\| d`: a non-zero integer is kept; NaN and 0 fall back to the default |
| Animations.TaskFor | kingspeechlandv.3/kingspeech-landing/js/modules/animations.js:125-142 | the task carries the element, its `data-animate` or 'fadeInUp', the parsed delay or 0, and the parsed duration, or 600 when it is missing, unparsable or zero |
| Animations.ClassFor | kingspeechlandv.3/kingspeech-landing/js/modules/animations.js:205 | the mapped class for a known type, else the type itself |
| Animations.IsAnimated | kingspeechlandv.3/kingspeech-landing/js/modules/animations.js:370-373 | `data-animated` is present or the `animated` class is set |
| Animations.ApplyAnimation | kingspeechlandv.3/kingspeech-landing/js/modules/animations.js:198-221 | the duration style for a non-zero duration; the class and 'animated' added, or a throw exactly for an invalid token |
| Animations.Execute | kingspeechlandv.3/kingspeech-landing/js/modules/animations.js:170-193 | an element no longer in the document is untouched; otherwise animated, marked, unobserved and a completion queued, unless applying threw |
| Animations.RunTasks | kingspeechlandv.3/kingspeech-landing/js/modules/animations.js:147-165 | the drain leaves an empty queue or stops at a task with a delay |
| Animations.RunTasksSuffix | kingspeechlandv.3/kingspeech-landing/js/modules/animations.js:154-164 | tasks leave only from the front, and none before the suffix had a delay |
| Animations.DrainSurvivesThrow | kingspeechlandv.3/kingspeech-landing/js/modules/animations.js:157-161 | a throwing task does not stop the drain |
| Animations.RunTasksAppend | kingspeechlandv.3/kingspeech-landing/js/modules/animations.js:131-141 | FIFO: queued tasks without delay run before later ones |
| Animations.QueryAll | kingspeechlandv.3/kingspeech-landing/js/modules/animations.js:97-105 | exactly the matching elements, as a subsequence of the document order, each once |
| Animations.FoundMayRepeat | kingspeechlandv.3/kingspeech-landing/js/modules/animations.js:108-112 | an element matching two selectors is listed twice |
| Animations.Cleared | kingspeechlandv.3/kingspeech-landing/js/modules/animations.js:327-339 | no animation attributes or classes remain |
| Animations.RemoveFirst | kingspeechlandv.3/kingspeech-landing/js/modules/animations.js:342-345 | one occurrence fewer, nothing else changed in count; an absent element changes nothing |
| Animations.RemoveFirstSplices | kingspeechlandv.3/kingspeech-landing/js/modules/animations.js:342-345 | the occurrence removed is the one at `indexOf`, the first, and the other elements keep their order |
| Animations.SplicingForEachStep | kingspeechlandv.3/kingspeech-landing/js/modules/animations.js:431-433 | one iteration of the splicing `forEach` |
| Animations.SplicingForEachSkipsSecond | kingspeechlandv.3/kingspeech-landing/js/modules/animations.js:431-433 | of two elements the splicing `forEach` visits only the first |
| Animations.ClearAll | kingspeechlandv.3/kingspeech-landing/js/modules/animations.js:431-433 | cleaning keeps the set of elements |
| Animations.ClearAllValues | kingspeechlandv.3/kingspeech-landing/js/modules/animations.js:327-339 | exactly the visited elements are cleaned |
| Animations.ClearAllStep | kingspeechlandv.3/kingspeech-landing/js/modules/animations.js:327-339 | cleaning one more element |
| Animations.AnimationManager.constructor | kingspeechlandv.3/kingspeech-landing/js/modules/animations.js:6-33 | the found elements are listed and observed; empty queue, no loop |
| Animations.AnimationManager.FindAnimatedElements | kingspeechlandv.3/kingspeech-landing/js/modules/animations.js:95-120 | the list becomes the three queries' results, all observed |
| Animations.Found | kingspeechlandv.3/kingspeech-landing/js/modules/animations.js:97-112 | the `[data-animate]` matches, then the animation-class matches, then the `[data-scroll]` matches, concatenated without removing repeats |
| Animations.AnimationManager.Drain | kingspeechlandv.3/kingspeech-landing/js/modules/animations.js:154-164 | runs to an empty queue and clears the flag, or suspends on a delayed task |
| Animations.AnimationManager.ProcessAnimationQueue | kingspeechlandv.3/kingspeech-landing/js/modules/animations.js:147-165 | returns at once while draining or with nothing queued; else drains |
| Animations.AnimationManager.TriggerAnimation | kingspeechlandv.3/kingspeech-landing/js/modules/animations.js:125-142 | one task joins the tail; a drain starts unless one runs |
| Animations.AnimationManager.Intersecting | kingspeechlandv.3/kingspeech-landing/js/modules/animations.js:45-51 | an observed element in the document has its task queued and, unless a drain is running, drained; any other element changes nothing |
| Animations.AnimationManager.ResumeLoop | kingspeechlandv.3/kingspeech-landing/js/modules/animations.js:174-176 | the delayed task runs and its loop drains on |
| Animations.AnimationManager.CompleteAnimation | kingspeechlandv.3/kingspeech-landing/js/modules/animations.js:215-220 | an element still in the document swaps its class for 'animation-complete' |
| Animations.AnimationManager.AddAnimation | kingspeechlandv.3/kingspeech-landing/js/modules/animations.js:296-322 | the element gets the three attributes and is in the list |
| Animations.AnimationManager.RemoveAnimation | kingspeechlandv.3/kingspeech-landing/js/modules/animations.js:327-351 | the element is cleaned, one listing removed and unobserved |
| Animations.AnimationManager.Refresh | kingspeechlandv.3/kingspeech-landing/js/modules/animations.js:398-415 | unobserve, empty queue, flag cleared, find again |
| Animations.AnimationManager.DestroyAsWritten | kingspeechlandv.3/kingspeech-landing/js/modules/animations.js:420-440 | as written: the queue and list empty, but only the elements the splicing `forEach` visits are cleaned |
| Animations.AnimationManager.Destroy | kingspeechlandv.3/kingspeech-landing/js/modules/animations.js:420-440 | corrected: every listed element is cleaned |
| Animations.AddedAttributesReadBack | kingspeechlandv.3/kingspeech-landing/js/modules/animations.js:304-306 | the attributes `addAnimation` writes read back as the same task |
| Animations.FoundTwo | kingspeechlandv.3/kingspeech-landing/js/modules/animations.js:95-112 | two `data-animate` elements are found once each, in order |
| Animations.DestroyAsWrittenSkipsSecond | kingspeechlandv.3/kingspeech-landing/js/modules/animations.js:431-433 | as written, the second of two elements keeps its attributes |
| Animations.DestroyCleansBoth | kingspeechlandv.3/kingspeech-landing/js/modules/animations.js:420-440 | corrected, both are cleaned |
| Animations.SecondLoopAfterRefresh | kingspeechlandv.3/kingspeech-landing/js/modules/animations.js:398-415 | `refresh` during a delay lets a second drain loop start |
| Theme.SystemTheme | kingspeechlandv.3/kingspeech-landing/js/modules/theme.js:43-48 | dark exactly when matchMedia exists and matches |
| Theme.InitialTheme | kingspeechlandv.3/kingspeech-landing/js/modules/theme.js:26-38 | always 'light' or 'dark' |
| Theme.InitialThemePriority | kingspeechlandv.3/kingspeech-landing/js/modules/theme.js:26-38 | a valid stored theme wins whatever else; without one, dark iff the html class or the system asks for it |
| Theme.Toggled | kingspeechlandv.3/kingspeech-landing/js/modules/theme.js:95 | dark exactly from 'light'; always a theme |
| Theme.ToggleInvolution | kingspeechlandv.3/kingspeech-landing/js/modules/theme.js:94-111 | on a valid theme toggling changes it, and twice is the identity |
| Theme.ToggleOfInvalid | kingspeechlandv.3/kingspeech-landing/js/modules/theme.js:95 | an invalid theme toggles to light, then dark |
| Theme.MetaColor | kingspeechlandv.3/kingspeech-landing/js/modules/theme.js:152 | '#0F172A' exactly for dark, '#FFFFFF' otherwise |
| Theme.AppliedClasses | kingspeechlandv.3/kingspeech-landing/js/modules/theme.js:136-147 | exactly one of dark/light matching the theme, the transition class, all other classes kept |
| Theme.ToggleLabel | kingspeechlandv.3/kingspeech-landing/js/modules/theme.js:203-213 | the 'switch to light' label exactly for dark |
| Theme.ThemeManager.constructor | kingspeechlandv.3/kingspeech-landing/js/modules/theme.js:6-21 | the theme detected from storage, the html class and the system, applied to the root with its meta colour and `color-scheme` |
| Theme.ThemeManager.ApplyTheme | kingspeechlandv.3/kingspeech-landing/js/modules/theme.js:132-163 | the classes, the meta colour when present, and `color-scheme` |
| Theme.ThemeManager.TransitionTimerFired | kingspeechlandv.3/kingspeech-landing/js/modules/theme.js:160-162 | only the transition class goes |
| Theme.ThemeManager.UpdateToggleState | kingspeechlandv.3/kingspeech-landing/js/modules/theme.js:200-221 | with a toggle, label, title, `aria-pressed` and classes follow the theme |
| Theme.ThemeManager.SetTheme | kingspeechlandv.3/kingspeech-landing/js/modules/theme.js:116-127 | invalid changes nothing; valid sets, applies, stores and shows |
| Theme.ThemeManager.ToggleTheme | kingspeechlandv.3/kingspeech-landing/js/modules/theme.js:94-111 | the toggled theme is set, applied (classes, meta colour where the tag exists, `color-scheme`) and stored |
| Theme.ThemeManager.OnToggleKeyDown | kingspeechlandv.3/kingspeech-landing/js/modules/theme.js:62-68 | Enter or Space toggles; other keys change nothing |
| Theme.ThemeManager.OnSystemChange | kingspeechlandv.3/kingspeech-landing/js/modules/theme.js:78-89 | applied (classes, meta colour, `color-scheme`) only when nothing non-empty is stored; the theme field is untouched |
| Theme.ThemeManager.ResetToSystemTheme | kingspeechlandv.3/kingspeech-landing/js/modules/theme.js:247-251 | the system theme is set, applied (classes, meta colour, `color-scheme`) and stored again |
| Theme.ToggleTwiceRestores | kingspeechlandv.3/kingspeech-landing/js/modules/theme.js:94-111 | two toggles restore the theme, which is stored |
| Theme.SystemChangeAfterToggle | kingspeechlandv.3/kingspeech-landing/js/modules/theme.js:81-87 | after a toggle stores a theme, system changes no longer reach the page |
| ThemePreinit.GetStoredTheme | kingspeechlandv.3/kingspeech-landing/js/modules/theme-preinit.js:10-16 | null when storage throws, else the stored value |
| ThemePreinit.GetInitialTheme | kingspeechlandv.3/kingspeech-landing/js/modules/theme-preinit.js:27-34 | always 'light' or 'dark' |
| ThemePreinit.InitialThemeSources | kingspeechlandv.3/kingspeech-landing/js/modules/theme-preinit.js:27-34 | a valid stored theme wins; otherwise the system decides |
| ThemePreinit.ManagerKeepsPreinitTheme | kingspeechlandv.3/kingspeech-landing/js/modules/theme-preinit.js:36-44 | the html class it leaves makes the manager detect the same theme |
| Theme.DarkClassOnly | kingspeechlandv.3/kingspeech-landing/js/modules/theme-preinit.js:40-44 | the `applyTheme` of the pre-init script and of `theme-simple.js` (lines 97-103): `dark` present exactly for dark, every other class unchanged, so `light` is never touched |
| ThemePreinit.ApplyTheme | kingspeechlandv.3/kingspeech-landing/js/modules/theme-preinit.js:36-51 | the initial theme's dark class and meta colour |
| ThemePreinit.PreinitThenManager | kingspeechlandv.3/kingspeech-landing/js/modules/theme-preinit.js:57-62 | script then manager agree on the theme |
| ThemeSimple.SimpleInitialTheme | kingspeechlandv.3/kingspeech-landing/js/modules/theme-simple.js:28-43 | always 'light' or 'dark' |
| ThemeSimple.SimpleIgnoresSystem | kingspeechlandv.3/kingspeech-landing/js/modules/theme-simple.js:28-43 | the full detection with the system taken as light |
| ThemeSimple.SimpleThemeManager.constructor | kingspeechlandv.3/kingspeech-landing/js/modules/theme-simple.js:6-23 | the theme detected from storage and the html class, ignoring the system, and applied |
| ThemeSimple.SimpleThemeManager.ApplyTheme | kingspeechlandv.3/kingspeech-landing/js/modules/theme-simple.js:94-104 | only the dark class changes |
| ThemeSimple.SimpleThemeManager.UpdateToggleState | kingspeechlandv.3/kingspeech-landing/js/modules/theme-simple.js:117-125 | `aria-pressed` and title follow the theme |
| ThemeSimple.SimpleThemeManager.SetTheme | kingspeechlandv.3/kingspeech-landing/js/modules/theme-simple.js:78-89 | invalid changes nothing; valid sets, applies, stores, shows |
| ThemeSimple.SimpleThemeManager.ToggleTheme | kingspeechlandv.3/kingspeech-landing/js/modules/theme-simple.js:68-73 | the toggled theme set and stored |
| ThemeSimple.LightClassSurvivesDark | kingspeechlandv.3/kingspeech-landing/js/modules/theme-simple.js:97-103 | switching to dark keeps a 'light' class, unlike the full manager |
| Faq.OpenOthers | kingspeechlandv.3/kingspeech-landing/js/modules/faq.js:57-61 | the written indices are in range |
| Faq.OpenOthersExact | kingspeechlandv.3/kingspeech-landing/js/modules/faq.js:57-61 | written exactly the open others, each once, in order |
| Faq.HeightStyle | kingspeechlandv.3/kingspeech-landing/js/modules/faq.js:50 | the style ends in 'px' |
| Faq.FAQManager.constructor | kingspeechlandv.3/kingspeech-landing/js/modules/faq.js:6-36 | each answer gets its height; every `open` as it was |
| Faq.FAQManager.SetupFAQAnimation | kingspeechlandv.3/kingspeech-landing/js/modules/faq.js:38-53 | `open` restored; only that answer's height set |
| Faq.FAQManager.CloseOtherFAQs | kingspeechlandv.3/kingspeech-landing/js/modules/faq.js:55-62 | all others closed, the given one unchanged, only open ones written |
| Faq.FAQManager.UserToggles | kingspeechlandv.3/kingspeech-landing/js/modules/faq.js:28-34 | after an item opens, every other item is closed; after one closes, the others are unchanged |
| Faq.OpenOthersOfThree | kingspeechlandv.3/kingspeech-landing/js/modules/faq.js:57-61 | the two calls of the scenario worked out |
| Faq.OpenFirstThenThird | kingspeechlandv.3/kingspeech-landing/js/modules/faq.js:28-34 | opening the first then the third leaves only the third open, writing only the first |


## Left out

- Percent-encoding and serialization of the URLSearchParams body (section 5 of the WHATWG URL Standard): `EncodeFormData` stops at the list of pairs appended.
- `fetch`, the AbortController timeout, JSON parsing and `getStats`: each attempt is an outcome (a response with status and optional JSON body, or a thrown error). The `timeout` option of `checkHealth` is not modelled.
- JSON values other than strings and null in the payload and the reply. `undefined` and `null` are both `None`.
- Wall-clock time: timers (`setTimeout`, `setInterval`, `wait`) are events the caller fires. Their delays are kept as numbers only where the source computes them (retry waits, the autoplay delay).
- Floating point: parallax, scroll progress, `ResizeObserver`/`handleResize`, and the geometry of `isElementInViewport`, which is a parameter of the keyboard handler.
- `announceToScreenReader`, `focus`, `scrollIntoView`, `focusFirstError`, the loading spinner markup, and the styling of status messages.
- Analytics (`trackFormSubmission`, gtag/ym), and the timestamp and user agent `collectFormData` adds. The form data arrives as a parameter.
- `getFormValidationState`, `resetFormValidation`, `getAnimationState`, `pauseAnimations`/`resumeAnimations`, `updateNavigationButtons`, the `isTransitioning()` accessor and the themes' getters (`getCurrentTheme`, `isDarkTheme`): read-only accessors, or code outside the modelled modules.
- The callback option of `addAnimation`.
- Listener removal in the `destroy` methods: the removals pass handlers that were never registered, so the model keeps the listeners attached (see `Carousel.AutoplayRestartsAfterDestroy`).
- The animation class table is looked up as a map. Keys inherited from `Object.prototype` are not modelled.
- Property order for integer-like keys, which JavaScript lists first, is not modelled. The model keeps plain insertion order.
- Microtask turns in the animation drain are merged: an `await` that does not wait for a timer lets no event in, so those steps run as one.
- The sunset animation and `updateThemeVariables` in `theme.js`; exceptions from `localStorage` in `theme.js` and `theme-simple.js` (only `theme-preinit.js` catches them); the `readyState` branch of `theme-preinit.js`, which only chooses when the script runs.
- The `toggle` events the browser fires when `setupFAQAnimation` writes `open`. The height the browser measures is a parameter.
- Js.Number: integers are unbounded. Doubles, the loss of exactness beyond 2^53 and the exponent form `String` uses from 1e21 are not modelled, so `Js.ParseIntOfString` is stated for safe integers only.
- The error element of a field is looked up in `field.closest('.form-field') || field.parentElement` (forms.js:240-247, 277-282). The model assumes each field has its own container, so fields that share one cannot remove each other's errors.
- The `catch` of `handleFormSubmit` (forms.js:100-103): `submitForm` catches every error itself, so only an exception inside the success or error handlers could reach it.
- Js.StringToNumber: handles decimal integers and blank strings, not fractions, exponents or hexadecimal, because the only source comparisons against `data-validate` values use integer lengths.

## Findings

| source | as written | input that shows it | evidently intended | confidence | as-written member | corrected member |
|---|---|---|---|---|---|---|
| kingspeechlandv.3/kingspeech-landing/js/modules/forms.js:380-402 | `showFormMessage` looks for the old message with `form.querySelector`, but inserts the new one before the form, outside it, so the lookup never finds it | two submissions of the same form | the previous message is replaced, leaving one on screen | not executed | Forms.MessagesAccumulateAsWritten | Forms.MessagesReplaced |
| kingspeechlandv.3/kingspeech-landing/js/modules/animations.js:420-440 | `destroy` runs `forEach` over `animatedElements` while `removeAnimation` splices the same array, so each removal shifts the next element under the current position | `animatedElements` holding two elements | every animated element has its attributes and classes removed | not executed | Animations.DestroyAsWrittenSkipsSecond | Animations.DestroyCleansBoth |
