/** Error codes (kernel/include/los_errno.h and the headers of the modules). */
module Errno {
  const OS_OK: nat := 0

  const ERRNO_TSK_PRIOR_ERROR: nat := 0x0200_0203
  const ERRNO_TSK_ID_INVALID: nat := 0x0200_0207
  const ERRNO_TSK_ALREADY_SUSPENDED: nat := 0x0200_0208
  const ERRNO_TSK_NOT_SUSPENDED: nat := 0x0200_0209
  const ERRNO_TSK_NOT_CREATED: nat := 0x0200_020a
  const ERRNO_TSK_DELAY_IN_INT: nat := 0x0300_020d
  const ERRNO_TSK_DELAY_IN_LOCK: nat := 0x0200_020e
  const ERRNO_TSK_YIELD_NOT_ENOUGH_TASK: nat := 0x0200_0210
  const ERRNO_TSK_OPERATE_IDLE: nat := 0x0200_0214
  const ERRNO_TSK_SUSPEND_LOCKED: nat := 0x0300_0215
  const ERRNO_TSK_SUSPEND_SWTMR_NOT_ALLOWED: nat := 0x0200_0221

  const ERRNO_SEM_PTR_NULL: nat := 0x0200_0702
  const ERRNO_SEM_ALL_BUSY: nat := 0x0200_0703
  const ERRNO_SEM_INVALID: nat := 0x0200_0701
  const ERRNO_SEM_UNAVAILABLE: nat := 0x0200_0704
  const ERRNO_SEM_PEND_INTERR: nat := 0x0200_0705
  const ERRNO_SEM_PEND_IN_LOCK: nat := 0x0200_0706
  const ERRNO_SEM_TIMEOUT: nat := 0x0200_0707
  const ERRNO_SEM_OVERFLOW: nat := 0x0200_0708
  const ERRNO_SEM_PENDED: nat := 0x0200_0709

  const ERRNO_MUX_PTR_NULL: nat := 0x0200_1d02
  const ERRNO_MUX_ALL_BUSY: nat := 0x0200_1d03
  const ERRNO_MUX_INVALID: nat := 0x0200_1d01
  const ERRNO_MUX_UNAVAILABLE: nat := 0x0200_1d04
  const ERRNO_MUX_PEND_INTERR: nat := 0x0200_1d05
  const ERRNO_MUX_PEND_IN_LOCK: nat := 0x0200_1d06
  const ERRNO_MUX_TIMEOUT: nat := 0x0200_1d07
  const ERRNO_MUX_PENDED: nat := 0x0200_1d09

  const ERRNO_EVENT_SETBIT_INVALID: bv32 := 0x0200_1c00
  const ERRNO_EVENT_READ_TIMEOUT: bv32 := 0x0200_1c01
  const ERRNO_EVENT_EVENTMASK_INVALID: bv32 := 0x0200_1c02
  const ERRNO_EVENT_READ_IN_INTERRUPT: bv32 := 0x0200_1c03
  const ERRNO_EVENT_FLAGS_INVALID: bv32 := 0x0200_1c04
  const ERRNO_EVENT_READ_IN_LOCK: bv32 := 0x0200_1c05
  const ERRNO_EVENT_PTR_NULL: bv32 := 0x0200_1c06

  const ERRNO_QUEUE_CREATE_NO_MEMORY: nat := 0x0200_0602
  const ERRNO_QUEUE_SIZE_TOO_BIG: nat := 0x0200_0603
  const ERRNO_QUEUE_CB_UNAVAILABLE: nat := 0x0200_0604
  const ERRNO_QUEUE_NOT_FOUND: nat := 0x0200_0605
  const ERRNO_QUEUE_PEND_IN_LOCK: nat := 0x0200_0606
  const ERRNO_QUEUE_TIMEOUT: nat := 0x0200_0607
  const ERRNO_QUEUE_IN_TSKUSE: nat := 0x0200_0608
  const ERRNO_QUEUE_WRITE_IN_INTERRUPT: nat := 0x0200_0609
  const ERRNO_QUEUE_NOT_CREATE: nat := 0x0200_060a
  const ERRNO_QUEUE_IN_TSKWRITE: nat := 0x0200_060b
  const ERRNO_QUEUE_CREAT_PTR_NULL: nat := 0x0200_060c
  const ERRNO_QUEUE_PARA_ISZERO: nat := 0x0200_060d
  const ERRNO_QUEUE_READ_INVALID: nat := 0x0200_060e
  const ERRNO_QUEUE_READ_PTR_NULL: nat := 0x0200_060f
  const ERRNO_QUEUE_READSIZE_ISZERO: nat := 0x0200_0610
  const ERRNO_QUEUE_WRITE_INVALID: nat := 0x0200_0611
  const ERRNO_QUEUE_WRITE_PTR_NULL: nat := 0x0200_0612
  const ERRNO_QUEUE_WRITESIZE_ISZERO: nat := 0x0200_0613
  const ERRNO_QUEUE_WRITE_NOT_CREATE: nat := 0x0200_0614
  const ERRNO_QUEUE_WRITE_SIZE_TOO_BIG: nat := 0x0200_0615
  const ERRNO_QUEUE_ISFULL: nat := 0x0200_0616
  const ERRNO_QUEUE_READ_IN_INTERRUPT: nat := 0x0200_0618
  const ERRNO_QUEUE_MAIL_HANDLE_INVALID: nat := 0x0200_0619
  const ERRNO_QUEUE_MAIL_PTR_INVALID: nat := 0x0200_061a
  const ERRNO_QUEUE_MAIL_FREE_ERROR: nat := 0x0200_061b
  const ERRNO_QUEUE_READ_NOT_CREATE: nat := 0x0200_061c
  const ERRNO_QUEUE_ISEMPTY: nat := 0x0200_061d
}
