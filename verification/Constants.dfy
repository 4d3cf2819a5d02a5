/** Process identifiers, priorities and sizes shared by kernel and processes (common.h, k_rtx.h, k_process.h). */
module Constants {
  const PID_NONE: int := -1

  const PID_NULL: nat := 0
  const PID_SET_PRIO: nat := 10
  const PID_CLOCK: nat := 11
  const PID_KCD: nat := 12
  const PID_CRT: nat := 13
  const PID_TIMER_IPROC: nat := 14
  const PID_UART_IPROC: nat := 15
  const NUM_PROCS: nat := 16

  type Pid = p: int | 0 <= p < NUM_PROCS

  const HIGHEST: nat := 0
  const LOWEST: nat := 3
  const NULL_PRIO: nat := 4
  const IPROC_PRIO: nat := 5
  const NUM_PRIORITIES: nat := 6

  const NUM_MEM_BLOCKS: nat := 30
  const MEM_BLOCK_SIZE: nat := 128
  const MTEXT_MAXLEN: nat := 91  // 128 bytes less the 36-byte header and a terminator

  const RTX_OK: int := 0
  const RTX_ERR: int := -1

  // Envelopes are the pool blocks 0 .. NUM_MEM_BLOCKS-1 followed by the two static UART notifications.
  const NOTIF_IN: nat := NUM_MEM_BLOCKS
  const NOTIF_OUT: nat := NUM_MEM_BLOCKS + 1
  const NUM_ENVELOPES: nat := NUM_MEM_BLOCKS + 2
}
