/** Signalling state of one session (internal/lobby/sessions/signal.go). */
module Signal {
  import opened Wrappers
  import opened Endpoint

  /** The number of the offer after `n`; the counter is an atomic uint32. */
  function NextNumber(n: Uint32): Uint32 {
    (n + 1) % UINT32
  }

  class Signal {
    var messenger: bool       // a messenger has been made
    var received: bool        // the messenger-ready channel is closed
    var offerer: Endpoint?
    var offerNumber: Uint32

    constructor ()
      ensures !messenger && !received && offerer == null && offerNumber == 0
    {
      messenger, received, offerer, offerNumber := false, false, null, 0;
    }

    method OnSenderChannel()
      modifies this
      ensures messenger && received
      ensures offerer == old(offerer) && offerNumber == old(offerNumber)
    {
      messenger := true;
      StopWaitingForMessenger();
    }

    method StopWaitingForMessenger()
      modifies this`received
      ensures received
    {
      if !received {
        received := true;
      }
    }

    method SetOfferer(endpoint: Endpoint)
      modifies this`offerer, this`offerNumber
      ensures offerer == endpoint && offerNumber == 0
    {
      offerer := endpoint;
      offerNumber := 0;
    }

    /** Sends the next numbered offer. */
    method OnNegotiationNeeded() returns (number: Uint32)
      requires messenger
      modifies this`offerNumber
      ensures number == offerNumber == NextNumber(old(offerNumber))
      ensures number == (old(offerNumber) + 1) % 0x1_0000_0000
    {
      offerNumber := if offerNumber == UINT32 - 1 then 0 else offerNumber + 1;
      number := offerNumber;
    }

    /** Applies an answer only if it carries the current offer number. */
    method OnAnswer(number: Uint32, stopped: bool) returns (applied: bool)
      modifies offerer
      ensures applied <==> offerer != null && number == offerNumber
      ensures offerer != null ==>
                offerer.initComplete == (old(offerer.initComplete) || (applied && !stopped)) &&
                offerer.senders == old(offerer.senders)
    {
      if offerer == null {
        return false;
      }
      if offerNumber != number {
        return false;
      }
      offerer.SetInitComplete(stopped);
      applied := true;
    }
  }
}
